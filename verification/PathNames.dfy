/** Where a joined name leads: the directories its path visits and the file it ends at. */
module PathNames {
  import opened FileSystem
  import opened Sequences

  const BUNDLE_SUFFIX := ".revision-contract.json"
  const MANIFEST_NAME := "rotation-manifest.json"

  function FileName(id: string): string {
    id + BUNDLE_SUFFIX
  }

  /** One component of a path, taken from the directory `dir`. */
  function Enter(dir: Path, part: string): Path {
    if part == "" || part == "." then dir
    else if part == ".." then Parent(dir)
    else dir + [part]
  }

  /** The directories visited from `dir`, in order. */
  function Route(dir: Path, parts: seq<string>): seq<Path>
    decreases |parts|
  {
    if parts == [] then [] else [Enter(dir, parts[0])] + Route(Enter(dir, parts[0]), parts[1..])
  }

  function Arrival(dir: Path, parts: seq<string>): Path
    decreases |parts|
  {
    if parts == [] then dir else Arrival(Enter(dir, parts[0]), parts[1..])
  }

  /** `Path::join`: a name that begins with a slash replaces the directory. */
  function Base(dir: Path, name: string): Path {
    if name != "" && name[0] == '/' then [] else dir
  }

  function Folders(name: string): seq<string> {
    Split(name)[..|Split(name)| - 1]
  }

  function Leaf(name: string): string {
    Split(name)[|Split(name)| - 1]
  }

  /** The directory that `dir.join(name)` has as its parent. */
  function Home(dir: Path, name: string): Path {
    Arrival(Base(dir, name), Folders(name))
  }

  /** Everything `create_dir_all` visits to get there. */
  function Way(dir: Path, name: string): seq<Path> {
    Prefixes(Base(dir, name)) + Route(Base(dir, name), Folders(name))
  }

  function Target(dir: Path, name: string): Path {
    Home(dir, name) + [Leaf(name)]
  }

  predicate Plain(id: string) {
    '/' !in id
  }

  lemma SuffixHasNoSlash()
    ensures '/' !in BUNDLE_SUFFIX
    ensures forall id :: Plain(id) ==> '/' !in FileName(id)
  {
  }

  lemma {:induction false} ArrivalOnRoute(dir: Path, parts: seq<string>)
    requires parts != []
    ensures Arrival(dir, parts) in Route(dir, parts)
    decreases |parts|
  {
    if |parts| > 1 {
      ArrivalOnRoute(Enter(dir, parts[0]), parts[1..]);
    } else {
      assert Route(dir, parts)[0] == Enter(dir, parts[0]) && parts[1..] == [];
    }
  }

  lemma HomeOnWay(dir: Path, name: string)
    ensures Home(dir, name) in Way(dir, name)
  {
    if Folders(name) == [] {
      assert Prefixes(Base(dir, name))[|Base(dir, name)|] == Base(dir, name);
    } else {
      ArrivalOnRoute(Base(dir, name), Folders(name));
    }
  }

  lemma PrefixesMeans(path: Path, p: Path)
    ensures p in Prefixes(path) <==> p <= path
  {
    if p <= path {
      assert Prefixes(path)[|p|] == p;
    }
  }

  lemma LeafOfFile(id: string)
    ensures Leaf(FileName(id)) == Leaf(id) + BUNDLE_SUFFIX
    ensures Folders(FileName(id)) == Folders(id)
  {
    SuffixHasNoSlash();
    SplitAppend(id, BUNDLE_SUFFIX);
  }

  /** A plain id names a direct child, and the way to it is the directory itself. */
  lemma PlainTarget(dir: Path, id: string)
    requires Plain(id)
    ensures Home(dir, FileName(id)) == dir && Way(dir, FileName(id)) == Prefixes(dir)
    ensures Target(dir, FileName(id)) == dir + [FileName(id)] == dir + [id + ".revision-contract.json"]
  {
    SplitPlain(id);
    LeafOfFile(id);
    assert FileName(id)[0] != '/';
    assert Route(dir, []) == [];
  }

  /** The ids "x" and "./x" name one file. */
  lemma DotSlashShares(dir: Path, id: string)
    requires Plain(id)
    ensures Target(dir, FileName("./" + id)) == Target(dir, FileName(id))
  {
    PlainTarget(dir, id);
    SplitPlain(id);
    LeafOfFile("./" + id);
    LeafOfFile(id);
    assert "./" + id == ['.'] + (['/'] + id);
    SplitCons('/', id);
    SplitCons('.', ['/'] + id);
    assert Split("./" + id) == [".", id] by {
      assert ['.'] + "" == "." && ["", id][1..] == [id];
    }
    assert Folders("./" + id) == ["."];
    assert ["."][1..] == [] && FileName("./" + id)[0] == '.';
  }

  lemma DotDotFolders(id: string)
    requires Plain(id)
    ensures Folders(FileName("../" + id)) == [".."] && Leaf(FileName("../" + id)) == FileName(id)
    ensures FileName("../" + id)[0] == '.'
  {
    SplitPlain(id);
    LeafOfFile("../" + id);
    assert "../" + id == ['.'] + (['.'] + (['/'] + id));
    SplitCons('/', id);
    SplitCons('.', ['/'] + id);
    SplitCons('.', ['.'] + (['/'] + id));
    assert Split(['.'] + (['/'] + id)) == [".", id] by {
      assert ['.'] + "" == "." && ["", id][1..] == [id];
    }
    assert Split("../" + id) == ["..", id] by {
      assert ['.'] + "." == ".." && [".", id][1..] == [id];
    }
  }

  /** An id "../x" names a file beside the directory. */
  lemma DotDotEscapes(parent: Path, stage: string, id: string)
    requires Plain(id)
    ensures Home(parent + [stage], FileName("../" + id)) == parent
    ensures Target(parent + [stage], FileName("../" + id)) == parent + [FileName(id)]
  {
    DotDotFolders(id);
    assert [".."][1..] == [] && Parent(parent + [stage]) == parent;
  }
}
