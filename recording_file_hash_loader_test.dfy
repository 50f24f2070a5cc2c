/** The three recording scenarios of the recorder's tests, each as a method
    that builds the tree, runs one lookup through a fresh recorder and
    returns what the manifest holds afterwards. Their postconditions are
    the tests' assertions, plus, in the symlink scenarios, the hash the
    lookup returns in this model (the delegate's answer for the queried
    path), which the tests do not check. The real path a symlink resolves to is a
    parameter: the tests create it in a temporary folder. */
module RecordingFileHashLoaderTest {
  import opened Wrappers
  import opened ProjectFiles
  import opened Distributed

  const EXAMPLE_HASHCODE := HashCode("1234")

  /** project/linktoexternal -> an external file. */
  method RecordsDirectSymlinkToFile(externalFileRealPath: string)
    returns (entries: seq<Entry>, hashCode: Result<Option<HashCode>, LoadError>)
    ensures |entries| == 1
    ensures entries[0].RootSymlinkEntry?
    ensures UnixPath(entries[0].path) == "linktoexternal"
    ensures entries[0].target == externalFileRealPath
    ensures hashCode == Ok(Some(EXAMPLE_HASHCODE))
  {
    var symlink := ["linktoexternal"];
    var fs := map[[] := Dir(["linktoexternal"]), symlink := Symlink(externalFileRealPath)];
    var fileHashes := new BuildJobStateFileHashes();
    var delegateLoader := FakeFileHashLoader(map[symlink := EXAMPLE_HASHCODE]);
    var recordingLoader := new RecordingFileHashLoader(p => delegateLoader.Get(p), fs, fileHashes);
    RecordUnderSymlink(fs, p => delegateLoader.Get(p), {}, symlink, symlink);
    hashCode := recordingLoader.Get(symlink);
    entries := fileHashes.entries;
  }

  /** project/linktoexternaldir -> an external directory, asked for the file
      project/linktoexternaldir/externalfile inside it. */
  method RecordsSymlinkToFileWithinExternalDirectory(externalDirRealPath: string)
    returns (entries: seq<Entry>, hashCode: Result<Option<HashCode>, LoadError>)
    ensures |entries| == 1
    ensures entries[0].RootSymlinkEntry?
    ensures UnixPath(entries[0].path) == "linktoexternaldir"
    ensures entries[0].target == externalDirRealPath
    ensures hashCode == Ok(Some(EXAMPLE_HASHCODE))
  {
    var symlinkRoot := ["linktoexternaldir"];
    var symlink := symlinkRoot + ["externalfile"];
    var fs := map[[] := Dir(["linktoexternaldir"]), symlinkRoot := Symlink(externalDirRealPath)];
    var fileHashes := new BuildJobStateFileHashes();
    var delegateLoader := FakeFileHashLoader(map[symlink := EXAMPLE_HASHCODE]);
    var recordingLoader := new RecordingFileHashLoader(p => delegateLoader.Get(p), fs, fileHashes);
    RecordUnderSymlink(fs, p => delegateLoader.Get(p), {}, symlink, symlinkRoot);
    hashCode := recordingLoader.Get(symlink);
    entries := fileHashes.entries;
  }

  /** The tree a (dir), a/b (dir), a/b/c (file), a/b/d (dir), a/e (file),
      asked for a, with a delegate that answers the same hash for every path. */
  method RecordsDirectoryAndRecursivelyRecordsChildren()
    returns (entries: seq<Entry>)
    ensures |entries| == 5
    ensures (set e | e in entries :: UnixPath(e.path)) == {"a", "a/b", "a/b/c", "a/b/d", "a/e"}
    ensures forall e | e in entries :: e.IsDirectory() <==> UnixPath(e.path) in {"a", "a/b", "a/b/d"}
  {
    var fs := DirectoryTree();
    var fileHashes := new BuildJobStateFileHashes();
    var delegate: Path -> Option<HashCode> := p => Some(EXAMPLE_HASHCODE);
    var recordingLoader := new RecordingFileHashLoader(delegate, fs, fileHashes);
    var _ := recordingLoader.Get(["a"]);
    entries := fileHashes.entries;
    DirectoryTreeIsWellFormed();
    DirectoryTreeBelowA();
    DirectoryTreeRecordsSubtree(fs, delegate, entries);
    EntryNames(fs, delegate, entries);
  }

  function DirectoryTree(): FileSystem {
    map[
      [] := Dir(["a"]),
      ["a"] := Dir(["b", "e"]),
      ["a", "b"] := Dir(["c", "d"]),
      ["a", "b", "c"] := File,
      ["a", "b", "d"] := Dir([]),
      ["a", "e"] := File]
  }

  lemma DirectoryTreeRecordsSubtree(fs: FileSystem, delegate: Path -> Option<HashCode>, entries: seq<Entry>)
    requires WellFormed(fs) && ["a"] in fs && Subtree(fs, ["a"]) == PathsBelowA() && |PathsBelowA()| == 5
    requires entries == [] + Record(fs, delegate, {}, ["a"]).added
    ensures |entries| == 5
    ensures Paths(entries) == PathsBelowA()
    ensures forall e | e in entries :: Describes(fs, delegate, e)
  {
    assert Paths([]) == {};
    assert entries == Record(fs, delegate, {}, ["a"]).added;
    RecordSubtree(fs, delegate, [], {}, ["a"]);
  }

  function PathsBelowA(): set<Path> {
    {["a"], ["a", "b"], ["a", "b", "c"], ["a", "b", "d"], ["a", "e"]}
  }

  lemma EntryNames(fs: FileSystem, delegate: Path -> Option<HashCode>, entries: seq<Entry>)
    requires fs == DirectoryTree()
    requires Paths(entries) == PathsBelowA()
    requires forall e | e in entries :: Describes(fs, delegate, e)
    ensures (set e | e in entries :: UnixPath(e.path)) == {"a", "a/b", "a/b/c", "a/b/d", "a/e"}
    ensures forall e | e in entries :: e.IsDirectory() <==> UnixPath(e.path) in {"a", "a/b", "a/b/d"}
  {
    UnixPathsBelowA();
    var names := set e | e in entries :: UnixPath(e.path);
    forall p | p in PathsBelowA() ensures UnixPath(p) in names {
      var e :| e in entries && e.path == p;
    }
    forall e | e in entries
      ensures UnixPath(e.path) in {"a", "a/b", "a/b/c", "a/b/d", "a/e"}
      ensures e.IsDirectory() <==> UnixPath(e.path) in {"a", "a/b", "a/b/d"}
    {
      assert e.path in Paths(entries);
      EntryName(fs, delegate, e);
    }
  }

  lemma EntryName(fs: FileSystem, delegate: Path -> Option<HashCode>, e: Entry)
    requires fs == DirectoryTree()
    requires e.path in PathsBelowA() && Describes(fs, delegate, e)
    ensures UnixPath(e.path) in {"a", "a/b", "a/b/c", "a/b/d", "a/e"}
    ensures e.IsDirectory() <==> UnixPath(e.path) in {"a", "a/b", "a/b/d"}
  {
    UnixPathsBelowA();
    var p := e.path;
    if p == ["a"] {
      assert UnixPath(p) == "a";
    } else if p == ["a", "b"] {
      assert UnixPath(p) == "a/b";
    } else if p == ["a", "b", "c"] {
      assert UnixPath(p) == "a/b/c";
    } else if p == ["a", "b", "d"] {
      assert UnixPath(p) == "a/b/d";
    } else {
      assert UnixPath(p) == "a/e";
    }
  }

  lemma UnixPathsBelowA()
    ensures UnixPath(["a"]) == "a"
    ensures UnixPath(["a", "b"]) == "a/b" && UnixPath(["a", "e"]) == "a/e"
    ensures UnixPath(["a", "b", "c"]) == "a/b/c" && UnixPath(["a", "b", "d"]) == "a/b/d"
  {
    assert ["a", "b"][..1] == ["a"] && ["a", "e"][..1] == ["a"];
    assert ["a", "b", "c"][..2] == ["a", "b"] && ["a", "b", "d"][..2] == ["a", "b"];
  }

  lemma DirectoryTreeBelowA()
    ensures Subtree(DirectoryTree(), ["a"]) == PathsBelowA()
    ensures |PathsBelowA()| == 5
  {
    var fs := DirectoryTree();
    assert !(["a"] <= []);
    assert fs.Keys == {[], ["a"], ["a", "b"], ["a", "b", "c"], ["a", "b", "d"], ["a", "e"]};
  }

  lemma DirectoryTreeIsWellFormed()
    ensures WellFormed(DirectoryTree())
  {
    var fs := DirectoryTree();
    forall q, k | q in fs && 0 <= k < |q|
      ensures q[..k] in fs && fs[q[..k]].Dir? && q[k] in fs[q[..k]].children
    {
      PrefixInDirectoryTree(q, k);
    }
    DirectoriesListChildren();
  }

  lemma PrefixInDirectoryTree(q: Path, k: nat)
    requires q in DirectoryTree() && k < |q|
    ensures var fs := DirectoryTree();
      q[..k] in fs && fs[q[..k]].Dir? && q[k] in fs[q[..k]].children
  {
    assert q == ["a"] || q == ["a", "b"] || q == ["a", "b", "c"] || q == ["a", "b", "d"] || q == ["a", "e"];
    assert q[..k] == if k == 0 then [] else if k == 1 then [q[0]] else [q[0], q[1]];
  }

  lemma DirectoriesListChildren()
    ensures forall d | d in DirectoryTree() && DirectoryTree()[d].Dir? :: ListsChildren(DirectoryTree(), d)
  {
    var fs := DirectoryTree();
    assert [] + ["a"] == ["a"];
    assert ["a"] + ["b"] == ["a", "b"] && ["a"] + ["e"] == ["a", "e"];
    assert ["a", "b"] + ["c"] == ["a", "b", "c"] && ["a", "b"] + ["d"] == ["a", "b", "d"];
    assert ListsChildren(fs, []);
    assert ListsChildren(fs, ["a"]);
    assert ListsChildren(fs, ["a", "b"]);
    assert ListsChildren(fs, ["a", "b", "d"]);
  }
}
