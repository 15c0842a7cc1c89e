/** Writing a document by way of a temporary sibling (`atomic_write_json`), state by state. */
module AtomicWrite {
  import opened FileSystem

  /** Process ids print as decimal numbers. */
  predicate Decimal(pid: string) {
    pid != "" && forall i :: 0 <= i < |pid| ==> '0' <= pid[i] <= '9'
  }

  function TempName(name: string, pid: string): string {
    "." + name + ".tmp-" + pid
  }

  function TempPath(home: Path, name: string, pid: string): Path {
    home + [TempName(name, pid)]
  }

  /** The states after the directories are there: clear a stale temporary, write a new one, rename it. */
  function FileStates<C>(u: Tree<C>, temp: Path, path: Path, content: C, torn: C): seq<Tree<C>> {
    if temp in u && u[temp].Directory? then []
    else
      var cleared := u - {temp};
      (if temp in u then [cleared] else [])
      + [cleared[temp := File(torn)], cleared[temp := File(content)]]
      + (if path in u && u[path].Directory? then [] else [cleared[path := File(content)]])
  }

  /** Every state of a write that meets no error but those its own files and directories cause. */
  ghost function WriteStates<C>(
    t: Tree<C>, way: seq<Path>, temp: Path, path: Path, content: C, torn: C): seq<Tree<C>>
  {
    Passage(t, way) + if Open(t, way) then FileStates(WithWay(t, way), temp, path, content, torn) else []
  }

  /** Nothing on the disk stands in the way of the write. */
  ghost predicate Writable<C>(t: Tree<C>, way: seq<Path>, temp: Path, path: Path) {
    && Open(t, way)
    && !(temp in WithWay(t, way) && WithWay(t, way)[temp].Directory?)
    && !(path in WithWay(t, way) && WithWay(t, way)[path].Directory?)
  }

  ghost function Written<C>(t: Tree<C>, way: seq<Path>, temp: Path, path: Path, content: C): Tree<C> {
    (WithWay(t, way) - {temp})[path := File(content)]
  }

  lemma TempDiffers(home: Path, name: string, pid: string)
    ensures TempPath(home, name, pid) != home + [name]
  {
    assert TempPath(home, name, pid)[|home|] == TempName(name, pid);
    assert (home + [name])[|home|] == name;
  }

  /** The first `n` of `states` were recorded, and the disk is in the last of them. */
  ghost predicate Began<C>(
    t: Tree<C>, before: seq<Tree<C>>, states: seq<Tree<C>>, n: nat, after: seq<Tree<C>>, now: Tree<C>)
  {
    n <= |states| && after == before + states[..n] && now == Latest(t, states[..n])
  }

  lemma BeganThen<C>(
    t: Tree<C>, u: Tree<C>, before: seq<Tree<C>>, first: seq<Tree<C>>, second: seq<Tree<C>>, whole: seq<Tree<C>>,
    more: nat, after: seq<Tree<C>>, now: Tree<C>)
    requires Began(u, before + first, second, more, after, now)
    requires |first| + more <= |whole| && whole[..|first| + more] == first + second[..more]
    requires Latest(t, whole[..|first| + more]) == Latest(u, second[..more])
    ensures Began(t, before, whole, |first| + more, after, now)
  {
    assert before + first + second[..more] == before + (first + second[..more]);
  }

  /** What stands in the way of replacing a file. */
  ghost predicate Stuck<C>(u: Tree<C>, temp: Path, path: Path) {
    (temp in u && u[temp].Directory?) || (path in u && u[path].Directory?)
  }

  /** Write the temporary file and rename it. */
  method WriteAndRename<C(!new)>(disk: Disk<C>, temp: Path, path: Path, content: C, torn: C)
    returns (ok: bool, ghost n: nat)
    requires temp != path && temp !in disk.tree
    modifies disk
    ensures var states := FileStates(old(disk.tree), temp, path, content, torn);
            Began(old(disk.tree), old(disk.trace), states, n, disk.trace, disk.tree) && (ok ==> n == |states|)
    ensures ok ==> !Stuck(old(disk.tree), temp, path) && disk.tree == old(disk.tree)[path := File(content)]
    ensures old(disk.faults) <= disk.faults
    ensures !ok ==> Stuck(old(disk.tree), temp, path) || WriteFaulted(disk.faults)
  {
    ghost var u := disk.tree;
    ghost var states := FileStates(u, temp, path, content, torn);
    assert u - {temp} == u;
    n := 0;
    var serializes: bool := *;
    if !serializes {
      disk.Raise(SerializeFault);
      return false, n;
    }
    ok := disk.WriteFile(temp, content, torn);
    if !ok {
      n := if disk.trace == old(disk.trace) then 0 else 1;
      return;
    }
    assert states[..2] == [states[0], states[1]];
    n := 2;
    ok := disk.RenameFile(temp, path);
    if ok {
      assert disk.tree == u[path := File(content)];
      assert states[..3] == states[..2] + [states[2]];
      n := 3;
    }
  }

  lemma ClearedStates<C>(u: Tree<C>, temp: Path, path: Path, content: C, torn: C)
    requires temp in u && u[temp].File? && temp != path
    ensures FileStates(u, temp, path, content, torn) ==
              [u - {temp}] + FileStates(u - {temp}, temp, path, content, torn)
  {
    assert u - {temp} - {temp} == u - {temp};
  }

  /** The steps on the files, once the directories are there. */
  method ReplaceFile<C(!new)>(disk: Disk<C>, temp: Path, path: Path, content: C, torn: C)
    returns (ok: bool, ghost n: nat)
    requires temp != path
    modifies disk
    ensures var states := FileStates(old(disk.tree), temp, path, content, torn);
            Began(old(disk.tree), old(disk.trace), states, n, disk.trace, disk.tree) && (ok ==> n == |states|)
    ensures ok ==> !Stuck(old(disk.tree), temp, path)
    ensures ok ==> disk.tree == (old(disk.tree) - {temp})[path := File(content)]
    ensures old(disk.faults) <= disk.faults
    ensures !ok ==> Stuck(old(disk.tree), temp, path) || WriteFaulted(disk.faults)
  {
    if temp !in disk.tree {
      assert disk.tree - {temp} == disk.tree;
      ok, n := WriteAndRename(disk, temp, path, content, torn);
      return;
    }
    ghost var u := disk.tree;
    ghost var cleared := u - {temp};
    ok := disk.RemoveFile(temp);
    if !ok {
      return ok, 0;
    }
    ClearedStates(u, temp, path, content, torn);
    ghost var states, rest := FileStates(u, temp, path, content, torn), FileStates(cleared, temp, path, content, torn);
    ghost var more;
    ok, more := WriteAndRename(disk, temp, path, content, torn);
    assert states[..1 + more] == [cleared] + rest[..more];
    BeganThen(u, cleared, old(disk.trace), [cleared], rest, states, more, disk.trace, disk.tree);
    n := 1 + more;
  }

  lemma PassagePart<C>(t: Tree<C>, way: seq<Path>, temp: Path, path: Path, content: C, torn: C, n: nat)
    requires n <= |Passage(t, way)|
    ensures var states := WriteStates(t, way, temp, path, content, torn);
            n <= |states| && states[..n] == Passage(t, way)[..n]
  {
  }

  lemma FilePart<C>(t: Tree<C>, way: seq<Path>, temp: Path, path: Path, content: C, torn: C, more: nat)
    requires Open(t, way) && more <= |FileStates(WithWay(t, way), temp, path, content, torn)|
    ensures var n, states := |Passage(t, way)| + more, WriteStates(t, way, temp, path, content, torn);
            && n <= |states|
            && states[..n] == Passage(t, way) + FileStates(WithWay(t, way), temp, path, content, torn)[..more]
            && Latest(t, states[..n]) ==
                 Latest(WithWay(t, way), FileStates(WithWay(t, way), temp, path, content, torn)[..more])
  {
    var files := FileStates(WithWay(t, way), temp, path, content, torn);
    OpenPassage(t, way);
    assert (Passage(t, way) + files)[..|Passage(t, way)| + more] == Passage(t, way) + files[..more];
  }

  /**
   * `atomic_write_json`: `way` lists the directories the parent path names, one after the other. A
   * crash or an error leaves exactly a beginning of the write's states; on success the document is
   * whole and the temporary is gone.
   */
  method AtomicWriteJson<C(!new)>(
    disk: Disk<C>, way: seq<Path>, home: Path, name: string, content: C, torn: C, pid: string)
    returns (ok: bool, ghost n: nat)
    modifies disk
    ensures var temp, path := TempPath(home, name, pid), home + [name];
            var states := WriteStates(old(disk.tree), way, temp, path, content, torn);
            && Began(old(disk.tree), old(disk.trace), states, n, disk.trace, disk.tree)
            && (ok ==>
                  && n == |states|
                  && Writable(old(disk.tree), way, temp, path)
                  && disk.tree == Written(old(disk.tree), way, temp, path, content))
            && (!ok ==> !Writable(old(disk.tree), way, temp, path) || WriteFaulted(disk.faults))
    ensures old(disk.faults) <= disk.faults
  {
    var temp, path := TempPath(home, name, pid), home + [name];
    TempDiffers(home, name, pid);
    ok, n := disk.CreateDirAll(way);
    if !ok {
      PassagePart(old(disk.tree), way, temp, path, content, torn, n);
      return;
    }
    ghost var t, passage := old(disk.tree), Passage(old(disk.tree), way);
    ghost var files := FileStates(WithWay(t, way), temp, path, content, torn);
    assert passage[..n] == passage;
    ghost var more;
    ok, more := ReplaceFile(disk, temp, path, content, torn);
    FilePart(t, way, temp, path, content, torn, more);
    BeganThen(t, WithWay(t, way), old(disk.trace), passage, files, WriteStates(t, way, temp, path, content, torn),
              more, disk.trace, disk.tree);
    n := n + more;
  }

  /** No state of a write lacks a directory that was there. */
  lemma WriteKeepsDirectories<C>(
    t: Tree<C>, way: seq<Path>, temp: Path, path: Path, content: C, torn: C, n: nat, p: Path)
    requires n <= |WriteStates(t, way, temp, path, content, torn)|
    requires p in t && t[p].Directory?
    ensures var now := Latest(t, WriteStates(t, way, temp, path, content, torn)[..n]);
            p in now && now[p].Directory?
  {
    var passage, states := Passage(t, way), WriteStates(t, way, temp, path, content, torn);
    if n <= |passage| {
      assert states[..n] == passage[..n];
      PassageKeeps(t, way, n, p);
    } else {
      OpenPassage(t, way);
      WithWayMeans(t, way);
      assert states[..n][n - 1] == FileStates(WithWay(t, way), temp, path, content, torn)[n - 1 - |passage|];
    }
  }

  lemma {:induction false} PassageKeeps<C>(t: Tree<C>, way: seq<Path>, n: nat, p: Path)
    requires n <= |Passage(t, way)| && p in t && t[p].Directory?
    ensures var now := Latest(t, Passage(t, way)[..n]);
            p in now && now[p].Directory?
    decreases |way|
  {
    if way != [] && n > 0 {
      if way[0] in t {
        PassageKeeps(t, way[1..], n, p);
      } else {
        var next := t[way[0] := Directory];
        PassageKeeps(next, way[1..], n - 1, p);
        assert Passage(t, way)[..n] == [next] + Passage(next, way[1..])[..n - 1];
      }
    }
  }
}
