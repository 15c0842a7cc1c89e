/**
 * A file system as a map from resolved paths to nodes. Every operation may fail, and every state
 * a crash could leave behind is recorded in `trace`, in order.
 */
module FileSystem {
  import opened Wrappers

  type Path = seq<string>

  datatype Node<+C> = Directory | File(content: C)

  type Tree<+C> = map<Path, Node<C>>

  function Parent(path: Path): Path {
    if path == [] then [] else path[..|path| - 1]
  }

  /** The root is a directory and every node sits in a directory. */
  ghost predicate Closed<C>(t: Tree<C>) {
    && [] in t
    && t[[]].Directory?
    && forall p :: p in t && |p| > 0 ==> p[..|p| - 1] in t && t[p[..|p| - 1]].Directory?
  }

  /** Every directory on the way to `path`, and `path` itself, is there. */
  ghost predicate Leads<C>(t: Tree<C>, path: Path) {
    forall i :: 0 <= i <= |path| ==> path[..i] in t && t[path[..i]].Directory?
  }

  lemma ClosedLeads<C>(t: Tree<C>, p: Path)
    requires Closed(t) && p in t
    ensures forall i :: 0 <= i < |p| ==> p[..i] in t && t[p[..i]].Directory?
    decreases |p|
  {
    if |p| > 0 {
      var up := p[..|p| - 1];
      ClosedLeads(t, up);
      forall i | 0 <= i < |p|
        ensures p[..i] in t && t[p[..i]].Directory?
      {
        assert i < |up| ==> p[..i] == up[..i];
      }
    }
  }

  /**
   * From `s` to `t` nothing changes but below `root`, except that new directories may appear, none
   * of them at or below `avoid`.
   */
  ghost predicate Within<C>(s: Tree<C>, t: Tree<C>, root: Path, avoid: Path) {
    && (forall p :: p in s && !(root <= p) ==> p in t && t[p] == s[p])
    && (forall p :: p in t && p !in s && !(root <= p) ==> t[p].Directory? && !(avoid <= p))
  }

  lemma WithinTransitive<C>(s: Tree<C>, t: Tree<C>, u: Tree<C>, root: Path, avoid: Path)
    requires Within(s, t, root, avoid) && Within(t, u, root, avoid)
    ensures Within(s, u, root, avoid)
  {
  }

  /** Every one of `states` is within `root` of `s`. */
  ghost predicate AllWithin<C>(s: Tree<C>, states: seq<Tree<C>>, root: Path, avoid: Path) {
    forall k :: 0 <= k < |states| ==> Within(s, states[k], root, avoid)
  }

  lemma AllWithinThen<C>(s: Tree<C>, mid: Tree<C>, states: seq<Tree<C>>, more: seq<Tree<C>>, root: Path, avoid: Path)
    requires AllWithin(s, states, root, avoid)
    requires Within(s, mid, root, avoid) && AllWithin(mid, more, root, avoid)
    ensures AllWithin(s, states + more, root, avoid)
  {
    forall k | 0 <= k < |more|
      ensures Within(s, more[k], root, avoid)
    {
      WithinTransitive(s, mid, more[k], root, avoid);
    }
  }

  lemma NothingBelow<C>(t: Tree<C>, root: Path, p: Path)
    requires Closed(t) && root !in t && root <= p
    ensures p !in t
    decreases |p|
  {
    if |p| > |root| {
      assert root <= p[..|p| - 1];
      NothingBelow(t, root, p[..|p| - 1]);
    } else {
      assert p == root;
    }
  }

  function Relocated(p: Path, from: Path, to: Path): Path
    requires from <= p
  {
    to + p[|from|..]
  }

  lemma RelocatedInjective(from: Path, to: Path)
    ensures forall p, r :: from <= p && from <= r && Relocated(p, from, to) == Relocated(r, from, to) ==> p == r
  {
    forall p, r | from <= p && from <= r && Relocated(p, from, to) == Relocated(r, from, to)
      ensures p == r
    {
      assert p == from + Relocated(p, from, to)[|to|..];
      assert r == from + Relocated(r, from, to)[|to|..];
    }
  }

  /** The tree after a directory and everything below it moved to a free place. */
  function Moved<C>(t: Tree<C>, from: Path, to: Path): Tree<C> {
    RelocatedInjective(from, to);
    (map p | p in t && !(from <= p) :: t[p])
    + (map p | p in t && from <= p :: Relocated(p, from, to) := t[p])
  }

  lemma RelocatedBelow(from: Path, to: Path, rest: Path)
    ensures Relocated(from + rest, from, to) == to + rest
  {
  }

  /** A node below `from` is found again at its relocated path. */
  lemma MovedAlong<C>(t: Tree<C>, from: Path, to: Path, p: Path)
    requires p in t && from <= p
    ensures Relocated(p, from, to) in Moved(t, from, to) && Moved(t, from, to)[Relocated(p, from, to)] == t[p]
  {
    RelocatedInjective(from, to);
  }

  lemma MovedBack<C>(t: Tree<C>, from: Path, to: Path, q: Path) returns (p: Path)
    requires q in Moved(t, from, to) && to < q && forall r :: r in t ==> !(to <= r)
    ensures p in t && from < p && q == Relocated(p, from, to) && Moved(t, from, to)[q] == t[p]
  {
    p :| p in t && from <= p && q == Relocated(p, from, to);
    assert p != from;
    MovedAlong(t, from, to, p);
  }

  /** The state a series of recorded states ends in, begun in `t`. */
  function Latest<C>(t: Tree<C>, states: seq<Tree<C>>): Tree<C> {
    if states == [] then t else states[|states| - 1]
  }

  /** `path` and everything on the way to it. */
  function Prefixes(path: Path): (r: seq<Path>)
    ensures |r| == |path| + 1
    ensures forall i :: 0 <= i <= |path| ==> r[i] == path[..i]
  {
    seq(|path| + 1, i requires 0 <= i <= |path| => path[..i])
  }

  /** The states in which the missing directories of `way` appear one by one; a file on the way ends it. */
  function Passage<C>(t: Tree<C>, way: seq<Path>): seq<Tree<C>>
    decreases |way|
  {
    if way == [] then []
    else if way[0] !in t then [t[way[0] := Directory]] + Passage(t[way[0] := Directory], way[1..])
    else if t[way[0]].Directory? then Passage(t, way[1..])
    else []
  }

  /** No file stands on the way. */
  ghost predicate Open<C>(t: Tree<C>, way: seq<Path>) {
    forall p :: p in way && p in t ==> t[p].Directory?
  }

  /** The tree with all directories of `way`. */
  function WithWay<C>(t: Tree<C>, way: seq<Path>): Tree<C>
    decreases |way|
  {
    if way == [] then t
    else WithWay(if way[0] in t then t else t[way[0] := Directory], way[1..])
  }

  lemma {:induction false} WithWayMeans<C>(t: Tree<C>, way: seq<Path>)
    ensures forall p :: p in WithWay(t, way) <==> p in t || p in way
    ensures forall p :: p in WithWay(t, way) ==> WithWay(t, way)[p] == if p in t then t[p] else Directory
    decreases |way|
  {
    if way != [] {
      WithWayMeans(if way[0] in t then t else t[way[0] := Directory], way[1..]);
      assert way == [way[0]] + way[1..];
    }
  }

  /** An open way is passed to its end. */
  lemma {:induction false} OpenPassage<C>(t: Tree<C>, way: seq<Path>)
    requires Open(t, way)
    ensures Latest(t, Passage(t, way)) == WithWay(t, way)
    decreases |way|
  {
    if way != [] {
      var next := if way[0] in t then t else t[way[0] := Directory];
      assert forall p :: p in way[1..] ==> p in way;
      OpenPassage(next, way[1..]);
      LatestCons(next, Passage(next, way[1..]));
    }
  }

  lemma LatestCons<C>(t: Tree<C>, states: seq<Tree<C>>)
    ensures forall s: Tree<C> :: Latest(s, [t] + states) == Latest(t, states)
  {
  }

  /** A way that is there already costs no step. */
  lemma {:induction false} PassageThere<C>(t: Tree<C>, there: seq<Path>, way: seq<Path>)
    requires forall p :: p in there ==> p in t && t[p].Directory?
    ensures Passage(t, there + way) == Passage(t, way)
    ensures WithWay(t, there + way) == WithWay(t, way)
  {
    if there == [] {
      assert there + way == way;
    } else {
      assert there[0] in there && forall p :: p in there[1..] ==> p in there;
      assert (there + way)[1..] == there[1..] + way;
      PassageThere(t, there[1..], way);
    }
  }

  /** Making a way keeps to the root and the directories outside it. */
  lemma {:induction false} PassageWithin<C>(t: Tree<C>, way: seq<Path>, root: Path, avoid: Path)
    requires forall p :: p in way ==> !(avoid <= p)
    ensures AllWithin(t, Passage(t, way), root, avoid)
    decreases |way|
  {
    if way != [] {
      assert way[0] in way && forall p :: p in way[1..] ==> p in way;
      if way[0] !in t {
        var next := t[way[0] := Directory];
        PassageWithin(next, way[1..], root, avoid);
        AllWithinThen(t, next, [next], Passage(next, way[1..]), root, avoid);
      } else {
        PassageWithin(t, way[1..], root, avoid);
      }
    }
  }

  /** From `s` to `t` nothing happens but that nodes below `root` go. */
  ghost predicate Shrunk<C>(s: Tree<C>, t: Tree<C>, root: Path) {
    && (forall p :: p in t ==> p in s && t[p] == s[p])
    && (forall p :: p in s && !(root <= p) ==> p in t)
  }

  /** What can fail although nothing on the disk stands in the way. */
  datatype Fault = KeyFault | CreateFault | ReadFault | SerializeFault | RemoveFault | WriteFault | RenameFault

  /** A fault that may keep a document from being written. */
  predicate WriteFaulted(faults: set<Fault>) {
    CreateFault in faults || SerializeFault in faults || RemoveFault in faults || WriteFault in faults
    || RenameFault in faults
  }

  class Disk<C(!new)> {
    var tree: Tree<C>
    ghost var trace: seq<Tree<C>>
    /** The faults met since they were last cleared. */
    ghost var faults: set<Fault>

    ghost method Raise(fault: Fault)
      modifies this`faults
      ensures faults == old(faults) + {fault}
    {
      faults := faults + {fault};
    }

    ghost method Record()
      modifies this`trace
      ensures trace == old(trace) + [tree]
    {
      trace := trace + [tree];
    }

    ghost method ClearFaults()
      modifies this`faults
      ensures faults == {}
    {
      faults := {};
    }

    method CreateDir(path: Path) returns (ok: bool)
      modifies this
      ensures ok ==> path !in old(tree) && tree == old(tree)[path := Directory] && trace == old(trace) + [tree]
      ensures !ok ==> tree == old(tree) && trace == old(trace)
      ensures old(faults) <= faults && (!ok ==> path in old(tree) || CreateFault in faults)
    {
      if path in tree {
        return false;
      }
      var succeeds: bool := *;
      if !succeeds {
        Raise(CreateFault);
        return false;
      }
      tree := tree[path := Directory];
      Record();
      return true;
    }

    /** Visit the directories of a way in turn, making those that are missing. */
    method CreateDirAll(way: seq<Path>) returns (ok: bool, ghost n: nat)
      modifies this
      ensures n <= |Passage(old(tree), way)|
      ensures trace == old(trace) + Passage(old(tree), way)[..n]
      ensures tree == Latest(old(tree), Passage(old(tree), way)[..n])
      ensures ok ==> n == |Passage(old(tree), way)| && Open(old(tree), way) && tree == WithWay(old(tree), way)
      ensures old(faults) <= faults && (!ok ==> !Open(old(tree), way) || CreateFault in faults)
    {
      n := 0;
      ghost var states := Passage(tree, way);
      for i := 0 to |way|
        invariant n <= |states| && trace == old(trace) + states[..n]
        invariant tree == Latest(old(tree), states[..n])
        invariant states[n..] == Passage(tree, way[i..])
        invariant forall p :: p in old(tree) ==> p in tree && tree[p] == old(tree)[p]
        invariant forall p :: p in way[..i] ==> p in tree && tree[p].Directory?
        invariant WithWay(old(tree), way) == WithWay(tree, way[i..])
        invariant old(faults) <= faults && forall p :: p in tree && p !in old(tree) ==> tree[p].Directory?
      {
        var path := way[i];
        assert way[i..][0] == path && way[i..][1..] == way[i + 1..];
        assert way[..i + 1] == way[..i] + [path];
        if path in tree {
          if tree[path].File? {
            assert path in way;
            return false, n;
          }
          var succeeds: bool := *;
          if !succeeds {
            Raise(CreateFault);
            return false, n;
          }
        } else {
          ok := CreateDir(path);
          if !ok {
            return;
          }
          assert states[n] == tree && states[n + 1..] == states[n..][1..];
          assert states[..n + 1] == states[..n] + [tree];
          n := n + 1;
        }
      }
      assert way[..|way|] == way && way[|way|..] == [];
      return true, n;
    }

    method RemoveFile(path: Path) returns (ok: bool)
      modifies this
      ensures ok ==> path in old(tree) && old(tree)[path].File?
      ensures ok ==> tree == old(tree) - {path} && trace == old(trace) + [tree]
      ensures !ok ==> tree == old(tree) && trace == old(trace)
      ensures old(faults) <= faults
      ensures !ok ==> path !in old(tree) || old(tree)[path].Directory? || RemoveFault in faults
    {
      if path !in tree || tree[path].Directory? {
        return false;
      }
      var succeeds: bool := *;
      if !succeeds {
        Raise(RemoveFault);
        return false;
      }
      tree := tree - {path};
      Record();
      return true;
    }

    /** Not atomic: a crash or an error on the way leaves a torn file. */
    method WriteFile(path: Path, content: C, torn: C) returns (ok: bool)
      modifies this
      ensures ok ==> path in old(tree) ==> old(tree)[path].File?
      ensures ok ==> tree == old(tree)[path := File(content)]
      ensures ok ==> trace == old(trace) + [old(tree)[path := File(torn)], tree]
      ensures !ok ==>
                || (tree == old(tree) && trace == old(trace))
                || (tree == old(tree)[path := File(torn)] && trace == old(trace) + [tree])
      ensures old(faults) <= faults
      ensures !ok ==> (path in old(tree) && old(tree)[path].Directory?) || WriteFault in faults
    {
      if path in tree && tree[path].Directory? {
        return false;
      }
      var opens: bool, completes: bool := *, *;
      if !opens {
        Raise(WriteFault);
        return false;
      }
      tree := tree[path := File(torn)];
      Record();
      if !completes {
        Raise(WriteFault);
        return false;
      }
      assert tree[path := File(content)] == old(tree)[path := File(content)];
      tree := tree[path := File(content)];
      Record();
      return true;
    }

    /** `rename` of a file: atomic, and it replaces a file already there. */
    method RenameFile(from: Path, to: Path) returns (ok: bool)
      modifies this
      ensures ok ==> from in old(tree) && (to in old(tree) ==> old(tree)[to].File?)
      ensures ok ==> tree == (old(tree) - {from})[to := old(tree)[from]] && trace == old(trace) + [tree]
      ensures !ok ==> tree == old(tree) && trace == old(trace)
      ensures old(faults) <= faults
      ensures !ok ==> || from !in old(tree) || old(tree)[from].Directory?
                      || (to in old(tree) && old(tree)[to].Directory?) || RenameFault in faults
    {
      if from !in tree || tree[from].Directory? || (to in tree && tree[to].Directory?) {
        return false;
      }
      var succeeds: bool := *;
      if !succeeds {
        Raise(RenameFault);
        return false;
      }
      tree := (tree - {from})[to := tree[from]];
      Record();
      return true;
    }

    /** `rename` of a directory: one atomic step; the target may only be absent or an empty directory. */
    method RenameDirectory(from: Path, to: Path) returns (ok: bool)
      modifies this
      ensures ok ==> tree == Moved(old(tree) - {to}, from, to) && trace == old(trace) + [tree]
      ensures !ok ==> tree == old(tree) && trace == old(trace)
      ensures old(faults) <= faults
      ensures !ok ==> || from !in old(tree) || old(tree)[from].File? || from <= to
                      || (exists p :: p in old(tree) && to <= p) || RenameFault in faults
    {
      if from !in tree || tree[from].File? || from <= to
         || exists p :: p in tree && to <= p && (p != to || tree[p].File?)
      {
        return false;
      }
      var succeeds: bool := *;
      if !succeeds {
        Raise(RenameFault);
        return false;
      }
      tree := Moved(tree - {to}, from, to);
      Record();
      return true;
    }

    /** Entry by entry, so an error or a crash leaves part of the directory. */
    method RemoveDirAll(path: Path) returns (ok: bool)
      modifies this
      ensures old(trace) <= trace && Shrunk(old(tree), tree, path)
      ensures forall k :: |old(trace)| <= k < |trace| ==> Shrunk(old(tree), trace[k], path)
      ensures ok ==> forall p :: p in tree ==> !(path <= p)
      ensures old(faults) <= faults && (!ok ==> RemoveFault in faults)
    {
      var doomed := set p | p in tree && path <= p;
      while doomed != {}
        invariant old(trace) <= trace && Shrunk(old(tree), tree, path)
        invariant forall k :: |old(trace)| <= k < |trace| ==> Shrunk(old(tree), trace[k], path)
        invariant doomed == set p | p in tree && path <= p
        invariant old(faults) <= faults
        decreases doomed
      {
        var p :| p in doomed;
        var succeeds: bool := *;
        if !succeeds {
          Raise(RemoveFault);
          return false;
        }
        assert path <= p;
        tree := tree - {p};
        Record();
        doomed := doomed - {p};
      }
      assert forall p :: p in tree && path <= p ==> p in doomed;
      return true;
    }
  }
}
