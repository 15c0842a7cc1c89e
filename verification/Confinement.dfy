/** Which revision ids a rotation can stage without touching anything else, exactly. */
module Confinement {
  import opened FileSystem
  import opened AtomicWrite
  import opened PathNames
  import Sequences

  /** The staging directory sits beside the output under a name of its own. */
  function Staging(out: Path, pid: string): Path
    requires out != []
  {
    Parent(out) + ["." + out[|out| - 1] + ".staging-" + pid]
  }

  lemma StagingBesideOutput(out: Path, pid: string)
    requires out != []
    ensures |Staging(out, pid)| == |out| && Staging(out, pid) != out
    ensures Parent(Staging(out, pid)) == Parent(out)
  {
    assert |Staging(out, pid)[|out| - 1]| > |out[|out| - 1]|;
  }

  /** Where the bundle with revision id `id` goes, and its temporary file. */
  function BundleWay(staging: Path, id: string): seq<Path> {
    Way(staging, FileName(id))
  }

  function BundleHome(staging: Path, id: string): Path {
    Home(staging, FileName(id))
  }

  function BundlePath(staging: Path, id: string): Path {
    Target(staging, FileName(id))
  }

  function BundleTemp(staging: Path, id: string, pid: string): Path {
    TempPath(BundleHome(staging, id), Leaf(FileName(id)), pid)
  }

  ghost function BundleStates<C>(
    t: Tree<C>, staging: Path, id: string, pid: string, content: C, torn: C): seq<Tree<C>>
  {
    WriteStates(t, BundleWay(staging, id), BundleTemp(staging, id, pid), BundlePath(staging, id), content, torn)
  }

  /** The temporary file's name is taken by a directory, so that the write always fails. */
  predicate Blocked(staging: Path, id: string, pid: string) {
    BundleTemp(staging, id, pid) in BundleWay(staging, id) || BundleTemp(staging, id, pid) <= staging
  }

  /**
   * The way to the file keeps clear of the output, and the file is in the staging directory, at any
   * depth, or is never written. Every id without a slash is harmless.
   */
  predicate Harmless(out: Path, pid: string, id: string)
    requires out != []
  {
    var staging := Staging(out, pid);
    && (forall p :: p in BundleWay(staging, id) ==> !(out <= p))
    && (staging <= BundleHome(staging, id) || Blocked(staging, id, pid))
  }

  /** Where the bundle of a plain id goes, name by name. */
  lemma PlainNames(parent: Path, name: string, pid: string, id: string)
    requires Plain(id)
    ensures var staging := Staging(parent + [name], pid);
            && staging == parent + ["." + name + ".staging-" + pid]
            && BundlePath(staging, id) == staging + [id + ".revision-contract.json"]
            && BundleTemp(staging, id, pid) == staging + ["." + (id + ".revision-contract.json") + ".tmp-" + pid]
  {
    assert Parent(parent + [name]) == parent;
    PlainTarget(Staging(parent + [name], pid), id);
    LeafOfFile(id);
    Sequences.SplitPlain(id);
  }

  lemma PlainIsHarmless(out: Path, pid: string, id: string)
    requires out != [] && Plain(id)
    ensures Harmless(out, pid, id)
    ensures BundlePath(Staging(out, pid), id) == Staging(out, pid) + [FileName(id)]
  {
    StagingBesideOutput(out, pid);
    PlainTarget(Staging(out, pid), id);
    forall p | p in Prefixes(Staging(out, pid))
      ensures !(out <= p)
    {
      PrefixesMeans(Staging(out, pid), p);
    }
  }

  /** Writing the first bundle of a rotation, into an empty staging directory. */
  ghost function FreshStates<C>(
    before: Tree<C>, out: Path, pid: string, id: string, content: C, torn: C): seq<Tree<C>>
    requires out != []
  {
    BundleStates(before[Staging(out, pid) := Directory], Staging(out, pid), id, pid, content, torn)
  }

  /** Nothing that was there before has changed. */
  ghost predicate Untouched<C>(before: Tree<C>, now: Tree<C>) {
    forall p :: p in before ==> p in now && now[p] == before[p]
  }

  ghost predicate OutputAbsent<C>(t: Tree<C>, out: Path) {
    forall p :: p in t ==> !(out <= p)
  }

  /** Something was lost or changed, or the output is there without a single file in it. */
  ghost predicate Damaged<C>(before: Tree<C>, now: Tree<C>, out: Path) {
    || !Untouched(before, now)
    || (!OutputAbsent(now, out) && forall p :: p in now && out < p ==> now[p].Directory?)
  }

  /** A disk a rotation can start on, with the staging directory's parent in place. */
  ghost predicate Prior<C>(before: Tree<C>, out: Path, pid: string)
    requires out != []
  {
    && Closed(before) && Leads(before, Parent(out))
    && out !in before && Staging(out, pid) !in before
  }

  /** Work confined to a staging directory beside the output leaves the output absent. */
  lemma StagingIsSafe<C>(before: Tree<C>, now: Tree<C>, out: Path, staging: Path)
    requires Closed(before) && out !in before && staging !in before
    requires |out| == |staging| && out != staging && Within(before, now, staging, out)
    ensures Untouched(before, now) && OutputAbsent(now, out)
  {
    forall p | p in before
      ensures p in now && now[p] == before[p]
    {
      if staging <= p {
        NothingBelow(before, staging, p);
      }
    }
    forall p | out <= p
      ensures p !in now
    {
      NothingBelow(before, out, p);
      assert p[..|out|] == out;
    }
  }

  lemma FilesWithin<C>(u: Tree<C>, temp: Path, path: Path, content: C, torn: C, root: Path, avoid: Path)
    requires (root <= temp && root <= path) || (temp in u && u[temp].Directory?)
    ensures AllWithin(u, FileStates(u, temp, path, content, torn), root, avoid)
  {
  }

  lemma WayWithin<C>(t: Tree<C>, way: seq<Path>, root: Path, avoid: Path)
    requires forall p :: p in way ==> !(avoid <= p)
    ensures Within(t, WithWay(t, way), root, avoid)
  {
    WithWayMeans(t, way);
  }

  lemma BlockedTemp<C>(t: Tree<C>, staging: Path, id: string, pid: string)
    requires Leads(t, staging) && Open(t, BundleWay(staging, id)) && Blocked(staging, id, pid)
    ensures var u, temp := WithWay(t, BundleWay(staging, id)), BundleTemp(staging, id, pid);
            temp in u && u[temp].Directory?
  {
    var temp := BundleTemp(staging, id, pid);
    WithWayMeans(t, BundleWay(staging, id));
    if temp <= staging {
      assert staging[..|temp|] == temp;
    }
  }

  /** Every state of writing a harmless bundle keeps to the staging directory. */
  lemma ConfinedWrite<C>(t: Tree<C>, out: Path, pid: string, id: string, content: C, torn: C)
    requires out != [] && Harmless(out, pid, id) && Leads(t, Staging(out, pid))
    ensures AllWithin(t, BundleStates(t, Staging(out, pid), id, pid, content, torn), Staging(out, pid), out)
  {
    var staging := Staging(out, pid);
    var way, temp, path := BundleWay(staging, id), BundleTemp(staging, id, pid), BundlePath(staging, id);
    PassageWithin(t, way, staging, out);
    if Open(t, way) {
      WayWithin(t, way, staging, out);
      if Blocked(staging, id, pid) {
        BlockedTemp(t, staging, id, pid);
      }
      FilesWithin(WithWay(t, way), temp, path, content, torn, staging, out);
      AllWithinThen(t, WithWay(t, way), Passage(t, way), FileStates(WithWay(t, way), temp, path, content, torn),
                    staging, out);
    }
  }

  /** The directories on the way to `path` and no more. */
  function Ancestry<C>(path: Path): Tree<C> {
    WithWay(map[], Prefixes(path))
  }

  lemma AncestryMeans<C>(path: Path)
    ensures forall p :: p in Ancestry<C>(path) <==> p <= path
    ensures forall p :: p in Ancestry<C>(path) ==> Ancestry<C>(path)[p].Directory?
    ensures Closed(Ancestry<C>(path))
  {
    WithWayMeans<C>(map[], Prefixes(path));
    forall p
      ensures p in Ancestry<C>(path) <==> p <= path
    {
      PrefixesMeans(path, p);
    }
    forall p | p in Ancestry<C>(path) && |p| > 0
      ensures p[..|p| - 1] in Ancestry<C>(path)
    {
      assert p[..|p| - 1] <= path;
    }
  }

  lemma AncestryLeads<C>(path: Path)
    ensures Leads(Ancestry<C>(path), path)
  {
    AncestryMeans<C>(path);
  }

  lemma BelowParent(out: Path, p: Path)
    requires out != []
    ensures p <= Parent(out) <==> p < out
  {
  }

  /** The disk with nothing but the way to the output's parent. */
  lemma BareIsPrior<C>(out: Path, pid: string)
    requires out != []
    ensures Prior(Ancestry<C>(Parent(out)), out, pid)
  {
    AncestryMeans<C>(Parent(out));
    AncestryLeads<C>(Parent(out));
    StagingBesideOutput(out, pid);
  }

  /** After a bundle's directories, from a bare disk with an empty staging directory. */
  lemma BareWay<C>(out: Path, pid: string, way: seq<Path>)
    requires out != []
    ensures var staged := Ancestry<C>(Parent(out))[Staging(out, pid) := Directory];
            var u := WithWay(staged, way);
            && Open(staged, way)
            && Latest(staged, Passage(staged, way)) == u
            && (forall p :: p in staged ==> !(out <= p))
            && (forall p :: p in u ==> u[p].Directory?)
            && (forall p :: p in u ==> p in staged || p in way)
            && (forall p :: p in way ==> p in u)
  {
    var staged := Ancestry<C>(Parent(out))[Staging(out, pid) := Directory];
    AncestryMeans<C>(Parent(out));
    StagingBesideOutput(out, pid);
    WithWayMeans(staged, way);
    OpenPassage(staged, way);
  }

  /** A way through the output makes it appear, empty. */
  lemma ThroughOutput<C>(out: Path, pid: string, id: string, v: Path, content: C, torn: C)
    returns (before: Tree<C>, k: nat)
    requires out != [] && v in BundleWay(Staging(out, pid), id) && out <= v
    ensures Prior(before, out, pid)
    ensures var states := FreshStates(before, out, pid, id, content, torn);
            k < |states| && Damaged(before, states[k], out)
  {
    before := Ancestry<C>(Parent(out));
    var staging := Staging(out, pid);
    var staged, way := before[staging := Directory], BundleWay(staging, id);
    BareIsPrior<C>(out, pid);
    BareWay<C>(out, pid, way);
    StagingBesideOutput(out, pid);
    var passage := Passage(staged, way);
    assert v !in staged;
    k := |passage| - 1;
    assert passage[k] == WithWay(staged, way);
  }

  lemma TempIsNotStaging(out: Path, home: Path, name: string, pid: string)
    requires out != []
    ensures TempPath(home, name, pid) != Staging(out, pid)
  {
    var temp, stage := TempName(name, pid), "." + out[|out| - 1] + ".staging-" + pid;
    assert temp[|temp| - |pid| - 2] == 'p';
    assert stage[|stage| - |pid| - 2] == 'g';
    assert TempPath(home, name, pid)[|home|] == temp;
    assert |home| + 1 == |out| ==> Staging(out, pid)[|home|] == stage;
  }

  /** The first state of the files, in the two cases that matter. */
  lemma FirstFileState<C>(
    t: Tree<C>, way: seq<Path>, temp: Path, path: Path, content: C, torn: C)
    requires Open(t, way) && !(temp in WithWay(t, way) && WithWay(t, way)[temp].Directory?)
    ensures var states, u := WriteStates(t, way, temp, path, content, torn), WithWay(t, way);
            && |Passage(t, way)| < |states|
            && states[|Passage(t, way)|] == if temp in u then u - {temp} else u[temp := File(torn)]
  {
    var u := WithWay(t, way);
    assert temp !in u ==> u - {temp} == u;
  }

  /** A temporary file that takes the output's own name makes a file appear there. */
  lemma TempIsOutput<C>(out: Path, pid: string, id: string, content: C, torn: C) returns (before: Tree<C>, k: nat)
    requires out != [] && BundleTemp(Staging(out, pid), id, pid) == out
    requires forall p :: p in BundleWay(Staging(out, pid), id) ==> !(out <= p)
    ensures Prior(before, out, pid)
    ensures var states := FreshStates(before, out, pid, id, content, torn);
            k < |states| && Damaged(before, states[k], out)
  {
    before := Ancestry<C>(Parent(out));
    var staging := Staging(out, pid);
    var staged, way := before[staging := Directory], BundleWay(staging, id);
    BareIsPrior<C>(out, pid);
    BareWay<C>(out, pid, way);
    StagingBesideOutput(out, pid);
    FirstFileState(staged, way, out, BundlePath(staging, id), content, torn);
    k := |Passage(staged, way)|;
    var now := WithWay(staged, way)[out := File(torn)];
    assert out in now;
  }

  /** The bare disk with the way to `home` and one file in it. */
  function WithFile<C>(out: Path, home: Path, temp: Path, content: C): Tree<C> {
    (Ancestry<C>(Parent(out)) + Ancestry<C>(home))[temp := File(content)]
  }

  lemma ClosedUnion<C>(a: Tree<C>, b: Tree<C>)
    requires Closed(a) && Closed(b)
    requires forall p :: p in a ==> a[p].Directory?
    requires forall p :: p in b ==> b[p].Directory?
    ensures Closed(a + b)
  {
  }

  lemma ClosedWithFile<C>(t: Tree<C>, home: Path, name: string, content: C)
    requires Closed(t) && home in t && t[home].Directory? && home + [name] !in t
    ensures Closed(t[home + [name] := File(content)])
  {
    var path := home + [name];
    var now := t[path := File(content)];
    forall p | p in now && |p| > 0
      ensures p[..|p| - 1] in now && now[p[..|p| - 1]].Directory?
    {
      assert p == path ==> p[..|p| - 1] == home;
    }
  }

  lemma WithFileMeans<C>(out: Path, home: Path, temp: Path, content: C)
    ensures var before := WithFile(out, home, temp, content);
            && temp in before && before[temp] == File(content)
            && (forall p :: p in before && p != temp ==> before[p].Directory?)
            && (forall p :: p in before ==> p <= Parent(out) || p <= home || p == temp)
            && (forall p :: p <= Parent(out) && p != temp ==> p in before)
  {
    AncestryMeans<C>(Parent(out));
    AncestryMeans<C>(home);
  }

  lemma WithFileClosed<C>(out: Path, home: Path, name: string, content: C)
    requires !(home + [name] <= Parent(out))
    ensures Closed(WithFile(out, home, home + [name], content))
  {
    AncestryMeans<C>(Parent(out));
    AncestryMeans<C>(home);
    ClosedUnion(Ancestry<C>(Parent(out)), Ancestry<C>(home));
    var bare := Ancestry<C>(Parent(out)) + Ancestry<C>(home);
    assert home in Ancestry<C>(home) && home + [name] !in bare;
    ClosedWithFile(bare, home, name, content);
  }

  lemma WithFileIsPrior<C>(out: Path, pid: string, home: Path, name: string, content: C)
    requires out != [] && !(out <= home) && !(Staging(out, pid) <= home)
    requires home + [name] != out && !(home + [name] <= Staging(out, pid))
    ensures Prior(WithFile(out, home, home + [name], content), out, pid)
  {
    var staging, path := Staging(out, pid), home + [name];
    var before := WithFile(out, home, path, content);
    StagingBesideOutput(out, pid);
    BelowParent(out, path);
    BelowParent(staging, path);
    WithFileClosed(out, home, name, content);
    WithFileMeans(out, home, path, content);
    ClosedReaches(before, Parent(out));
  }

  lemma ClosedReaches<C>(t: Tree<C>, path: Path)
    requires Closed(t) && path in t && t[path].Directory?
    ensures Leads(t, path)
  {
    ClosedLeads(t, path);
    forall i | 0 <= i <= |path|
      ensures path[..i] in t && t[path[..i]].Directory?
    {
      assert i == |path| ==> path[..i] == path;
    }
  }

  /** A write that finds a file under the temporary's name, outside the staging directory, loses it. */
  lemma LosesFile<C>(
    before: Tree<C>, t: Tree<C>, way: seq<Path>, temp: Path, path: Path, content: C, torn: C) returns (k: nat)
    requires Open(t, way) && temp in before && temp in t && t[temp].File?
    ensures var states := WriteStates(t, way, temp, path, content, torn);
            k < |states| && !Untouched(before, states[k])
  {
    WithWayMeans(t, way);
    FirstFileState(t, way, temp, path, content, torn);
    k := |Passage(t, way)|;
  }

  /** A file outside the staging directory: a stale file of the temporary's name is lost. */
  lemma OutsideLosesFile<C>(out: Path, pid: string, id: string, content: C, torn: C)
    returns (before: Tree<C>, k: nat)
    requires out != [] && BundleTemp(Staging(out, pid), id, pid) != out
    requires forall p :: p in BundleWay(Staging(out, pid), id) ==> !(out <= p)
    requires !(Staging(out, pid) <= BundleHome(Staging(out, pid), id)) && !Blocked(Staging(out, pid), id, pid)
    ensures Prior(before, out, pid)
    ensures var states := FreshStates(before, out, pid, id, content, torn);
            k < |states| && Damaged(before, states[k], out)
  {
    var staging := Staging(out, pid);
    var way, home, temp := BundleWay(staging, id), BundleHome(staging, id), BundleTemp(staging, id, pid);
    HomeOnWay(staging, FileName(id));
    WithFileIsPrior(out, pid, home, TempName(Leaf(FileName(id)), pid), content);
    WithFileMeans(out, home, temp, content);
    before := WithFile(out, home, temp, content);
    TempIsNotStaging(out, home, Leaf(FileName(id)), pid);
    k := LosesFile(before, before[staging := Directory], way, temp, BundlePath(staging, id), content, torn);
  }

  /** And a write that succeeds replaces whatever file its target was. */
  lemma OutsideOverwrites<C>(out: Path, pid: string, id: string, content: C, other: C) returns (before: Tree<C>)
    requires out != [] && content != other
    requires forall p :: p in BundleWay(Staging(out, pid), id) ==> !(out <= p)
    requires !(Staging(out, pid) <= BundleHome(Staging(out, pid), id)) && !Blocked(Staging(out, pid), id, pid)
    requires var path := BundlePath(Staging(out, pid), id);
             path !in BundleWay(Staging(out, pid), id) && !(path <= Staging(out, pid)) && path != out
    ensures Prior(before, out, pid)
    ensures var staging := Staging(out, pid);
            var staged := before[staging := Directory];
            var way, temp, path := BundleWay(staging, id), BundleTemp(staging, id, pid), BundlePath(staging, id);
            && Writable(staged, way, temp, path)
            && path in before && Written(staged, way, temp, path, content)[path] != before[path]
  {
    var staging := Staging(out, pid);
    var way, home, path := BundleWay(staging, id), BundleHome(staging, id), BundlePath(staging, id);
    HomeOnWay(staging, FileName(id));
    WithFileIsPrior(out, pid, home, Leaf(FileName(id)), other);
    WithFileMeans(out, home, path, other);
    before := WithFile(out, home, path, other);
    TempOutside(out, pid, id);
    TempIsNotStaging(out, home, Leaf(FileName(id)), pid);
    TempDiffers(home, Leaf(FileName(id)), pid);
    ReplacesFile(before[staging := Directory], way, BundleTemp(staging, id, pid), path, content, other);
  }

  lemma ReplacesFile<C>(t: Tree<C>, way: seq<Path>, temp: Path, path: Path, content: C, other: C)
    requires Open(t, way) && path in t && t[path] == File(other) && content != other
    requires temp !in t && temp !in way
    ensures Writable(t, way, temp, path) && Written(t, way, temp, path, content)[path] != t[path]
  {
    WithWayMeans(t, way);
  }

  lemma TempOutside(out: Path, pid: string, id: string)
    requires out != []
    requires !Blocked(Staging(out, pid), id, pid)
    ensures var temp := BundleTemp(Staging(out, pid), id, pid);
            !(temp <= Parent(out)) && !(temp <= BundleHome(Staging(out, pid), id))
  {
    StagingBesideOutput(out, pid);
    BelowParent(Staging(out, pid), BundleTemp(Staging(out, pid), id, pid));
  }

  /** The failure is real: an id "../x" is not harmless. */
  lemma DotDotIsHarmful(out: Path, pid: string, id: string)
    requires out != [] && Plain(id)
    ensures !Harmless(out, pid, "../" + id)
  {
    var staging, name := Staging(out, pid), FileName("../" + id);
    var parent, stage := Parent(out), staging[|staging| - 1];
    assert staging == parent + [stage];
    DotDotEscapes(parent, stage, id);
    var temp := BundleTemp(staging, "../" + id, pid);
    TempIsNotStaging(out, parent, Leaf(name), pid);
    assert |temp| == |staging| && !(temp <= staging) && |parent| < |staging|;
    forall p | p in Way(staging, name)
      ensures p != temp
    {
      DotDotWay(parent, stage, id, p);
    }
  }

  lemma DotDotWay(parent: Path, stage: string, id: string, p: Path)
    requires Plain(id) && p in Way(parent + [stage], FileName("../" + id))
    ensures p <= parent + [stage]
  {
    var staging, name := parent + [stage], FileName("../" + id);
    DotDotEscapes(parent, stage, id);
    DotDotFolders(id);
    assert Base(staging, name) == staging;
    assert [".."][1..] == [] && Route(staging, [".."]) == [Parent(staging)];
    PrefixesMeans(staging, p);
  }

  lemma HarmfulDamages<C>(out: Path, pid: string, id: string, content: C, torn: C) returns (before: Tree<C>, k: nat)
    requires out != [] && !Harmless(out, pid, id)
    ensures Prior(before, out, pid)
    ensures var states := FreshStates(before, out, pid, id, content, torn);
            k < |states| && Damaged(before, states[k], out)
  {
    var way := BundleWay(Staging(out, pid), id);
    if v :| v in way && out <= v {
      before, k := ThroughOutput(out, pid, id, v, content, torn);
    } else if BundleTemp(Staging(out, pid), id, pid) == out {
      before, k := TempIsOutput(out, pid, id, content, torn);
    } else {
      before, k := OutsideLosesFile(out, pid, id, content, torn);
    }
  }

  /** The `k`-th state of writing the bundle, from a disk with an empty staging directory, shows nothing. */
  ghost predicate Hidden<C>(
    before: Tree<C>, out: Path, pid: string, id: string, content: C, torn: C, k: nat)
    requires out != []
  {
    var states := FreshStates(before, out, pid, id, content, torn);
    k < |states| ==> Untouched(before, states[k]) && OutputAbsent(states[k], out)
  }

  lemma StagedLeads<C>(before: Tree<C>, out: Path, pid: string)
    requires out != [] && Prior(before, out, pid)
    ensures Leads(before[Staging(out, pid) := Directory], Staging(out, pid))
  {
    var staging := Staging(out, pid);
    var staged := before[staging := Directory];
    StagingBesideOutput(out, pid);
    forall i | 0 <= i <= |staging|
      ensures staging[..i] in staged && staged[staging[..i]].Directory?
    {
      assert i < |staging| ==> staging[..i] == Parent(staging)[..i];
      assert i == |staging| ==> staging[..i] == staging;
    }
  }

  lemma HarmlessHides<C>(before: Tree<C>, out: Path, pid: string, id: string, content: C, torn: C, k: nat)
    requires out != [] && Harmless(out, pid, id) && Prior(before, out, pid)
    ensures Hidden(before, out, pid, id, content, torn, k)
  {
    var staging := Staging(out, pid);
    var staged := before[staging := Directory];
    var states := BundleStates(staged, staging, id, pid, content, torn);
    StagedLeads(before, out, pid);
    StagingBesideOutput(out, pid);
    ConfinedWrite(staged, out, pid, id, content, torn);
    if k < |states| {
      WithinTransitive(before, staged, states[k], staging, out);
      StagingIsSafe(before, states[k], out, staging);
    }
  }

  /**
   * The exact condition: an id is harmless if and only if, from every disk a rotation can start on,
   * no state of writing its bundle changes anything from before or makes the output appear.
   */
  lemma HarmlessIff<C(!new)>(out: Path, pid: string, id: string, content: C, torn: C)
    requires out != []
    ensures Harmless(out, pid, id) <==>
              forall before: Tree<C>, k: nat ::
                Prior(before, out, pid) ==> Hidden(before, out, pid, id, content, torn, k)
  {
    if Harmless(out, pid, id) {
      forall before: Tree<C>, k: nat | Prior(before, out, pid)
        ensures Hidden(before, out, pid, id, content, torn, k)
      {
        HarmlessHides(before, out, pid, id, content, torn, k);
      }
    } else {
      var before, k := HarmfulDamages(out, pid, id, content, torn);
      assert !Hidden(before, out, pid, id, content, torn, k);
    }
  }
}
