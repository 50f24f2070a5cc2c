/** The recording file-hash loader of distributed builds: a file-hash
    loader that answers every lookup from a delegate loader and, as a side
    effect, appends manifest entries describing what it was asked about to
    a shared `BuildJobStateFileHashes` list.

    - A path that is a symlink, or lies below a symlinked directory, is
      recorded as one root-symlink entry for its outermost symlink, naming
      the real path the link resolves to; nothing beyond the link is
      recorded.
    - An ordinary file is recorded as a file entry.
    - An ordinary directory is recorded as a directory entry listing its
      children, followed by the recording of each child in turn.
    - A path (or outermost symlink) already recorded is not recorded again. */
module Distributed {
  import opened Wrappers
  import opened ProjectFiles

  /** A content hash; only compared, never computed here. */
  datatype HashCode = HashCode(text: string)

  /** One manifest entry (a `BuildJobStateFileHashEntry`). */
  datatype Entry =
    | FileEntry(path: Path, hashCode: Option<HashCode>)
    | DirectoryEntry(path: Path, hashCode: Option<HashCode>, children: seq<string>)
    | RootSymlinkEntry(path: Path, target: string)
  {
    predicate IsDirectory() {
      DirectoryEntry?
    }
  }

  /** A member of an archive, addressed by the archive's path and the
      member's path inside it. */
  datatype ArchiveMemberPath = ArchiveMemberPath(archivePath: Path, memberPath: Path)

  datatype LoadError = NoSuchFile(path: Path)

  /** The hash loader the recorder's tests delegate to: a fixed table of
      hashes by path, size 0 for everything, no hash for archive members. */
  datatype FakeFileHashLoader = FakeFileHashLoader(hashCodesByPath: map<Path, HashCode>) {

    function Get(path: Path): (r: Option<HashCode>)
      ensures r.Some? <==> path in hashCodesByPath
      ensures r.Some? ==> r.value == hashCodesByPath[path]
    {
      if path in hashCodesByPath then Some(hashCodesByPath[path]) else None
    }

    function GetSize(path: Path): (size: int)
      ensures size == 0
    {
      0
    }

    function GetArchiveMember(archiveMemberPath: ArchiveMemberPath): (r: Option<HashCode>)
      ensures r.None?
    {
      None
    }
  }

  // ---------------------------------------------------------------------
  // What one lookup records

  /** The entries one lookup appends and the recorded paths afterwards. */
  datatype Step = Step(added: seq<Entry>, seen: set<Path>)

  /** The recording done by a lookup of `p` when the paths in `seen` have
      been recorded already. */
  function Record(fs: FileSystem, delegate: Path -> Option<HashCode>, seen: set<Path>, p: Path): Step
    decreases Subtree(fs, p), 0
  {
    if p in seen then Step([], seen)
    else match SymlinkRoot(fs, p)
      case Some(link) =>
        if link in seen then Step([], seen)
        else Step([RootSymlinkEntry(link, fs[link].realTarget)], seen + {link})
      case None =>
        if p !in fs then Step([], seen)
        else if fs[p].Dir? then
          assert p in Subtree(fs, p);
          var children := RecordChildren(fs, delegate, seen + {p}, p, fs[p].children);
          Step([DirectoryEntry(p, delegate(p), fs[p].children)] + children.added, children.seen)
        else Step([FileEntry(p, delegate(p))], seen + {p})
  }

  /** The recording of the children `names` of directory `dir`, in order. */
  function RecordChildren(fs: FileSystem, delegate: Path -> Option<HashCode>, seen: set<Path>,
                          dir: Path, names: seq<string>): Step
    decreases Subtree(fs, dir) - {dir}, 1, |names|
  {
    if names == [] then Step([], seen)
    else
      ChildSubtreeBelow(fs, dir, names[0]);
      var first := Record(fs, delegate, seen, dir + [names[0]]);
      var rest := RecordChildren(fs, delegate, first.seen, dir, names[1..]);
      Step(first.added + rest.added, rest.seen)
  }

  /** Recording the children from position `i` on is recording child `i`
      and then the children after it. */
  lemma RecordChildrenFrom(fs: FileSystem, delegate: Path -> Option<HashCode>, seen: set<Path>,
                           dir: Path, names: seq<string>, i: nat)
    requires i < |names|
    ensures var first := Record(fs, delegate, seen, dir + [names[i]]);
      RecordChildren(fs, delegate, seen, dir, names[i..])
      == Step(first.added + RecordChildren(fs, delegate, first.seen, dir, names[i + 1..]).added,
              RecordChildren(fs, delegate, first.seen, dir, names[i + 1..]).seen)
  {
    assert names[i..][0] == names[i] && names[i..][1..] == names[i + 1..];
  }

  ghost function Paths(es: seq<Entry>): set<Path> {
    set e | e in es :: e.path
  }

  /** `e` tells the truth about the tree: a file entry names a path that is
      not a directory and has no symlink above it, with the delegate's hash;
      a directory entry lists the directory's children; a root-symlink entry
      names an outermost symlink and its real target. */
  ghost predicate Describes(fs: FileSystem, delegate: Path -> Option<HashCode>, e: Entry) {
    match e
    case FileEntry(p, h) =>
      p in fs && !fs[p].Dir? && SymlinkRoot(fs, p).None? && h == delegate(p)
    case DirectoryEntry(p, h, names) =>
      p in fs && fs[p] == Dir(names) && SymlinkRoot(fs, p).None? && h == delegate(p)
    case RootSymlinkEntry(p, target) =>
      p in fs && fs[p] == Symlink(target) && SymlinkRoot(fs, p) == Some(p)
  }

  /** The invariant of a recorder's entry list: every entry is true, no
      path has two entries, and the recorded paths are exactly `seen`. */
  ghost predicate Inv(fs: FileSystem, delegate: Path -> Option<HashCode>, es: seq<Entry>, seen: set<Path>) {
    && (forall e | e in es :: Describes(fs, delegate, e))
    && (forall i, j | 0 <= i < j < |es| :: es[i].path != es[j].path)
    && Paths(es) == seen
  }

  lemma InvExtend(fs: FileSystem, delegate: Path -> Option<HashCode>, es: seq<Entry>, seen: set<Path>, e: Entry)
    requires Inv(fs, delegate, es, seen)
    requires Describes(fs, delegate, e) && e.path !in seen
    ensures Inv(fs, delegate, es + [e], seen + {e.path})
  {
    var es' := es + [e];
    forall i, j | 0 <= i < j < |es'| ensures es'[i].path != es'[j].path {
      if j == |es| {
        assert es[i] in es;
      }
    }
    assert Paths(es') == Paths(es) + {e.path};
  }

  lemma SeenIsInTree(fs: FileSystem, delegate: Path -> Option<HashCode>, es: seq<Entry>, seen: set<Path>, p: Path)
    requires Inv(fs, delegate, es, seen) && p in seen
    ensures p in fs
  {
    var e :| e in es && e.path == p;
    assert Describes(fs, delegate, e);
  }

  lemma {:induction false} RecordKeepsInv(fs: FileSystem, delegate: Path -> Option<HashCode>,
                                          es: seq<Entry>, seen: set<Path>, p: Path)
    requires Inv(fs, delegate, es, seen)
    ensures Inv(fs, delegate, es + Record(fs, delegate, seen, p).added, Record(fs, delegate, seen, p).seen)
    decreases Subtree(fs, p), 0
  {
    if p in seen {
      assert es + [] == es;
    } else {
      match SymlinkRoot(fs, p)
      case Some(link) =>
        if link in seen {
          assert es + [] == es;
        } else {
          OutermostSymlinkIsItsOwnRoot(fs, p);
          InvExtend(fs, delegate, es, seen, RootSymlinkEntry(link, fs[link].realTarget));
        }
      case None =>
        if p !in fs {
          assert es + [] == es;
        } else if fs[p].Dir? {
          assert p in Subtree(fs, p);
          var d := DirectoryEntry(p, delegate(p), fs[p].children);
          InvExtend(fs, delegate, es, seen, d);
          var children := RecordChildren(fs, delegate, seen + {p}, p, fs[p].children);
          RecordChildrenKeepsInv(fs, delegate, es + [d], seen + {p}, p, fs[p].children);
          assert es + ([d] + children.added) == es + [d] + children.added;
        } else {
          InvExtend(fs, delegate, es, seen, FileEntry(p, delegate(p)));
        }
    }
  }

  lemma {:induction false} RecordChildrenKeepsInv(fs: FileSystem, delegate: Path -> Option<HashCode>,
                                                  es: seq<Entry>, seen: set<Path>, dir: Path, names: seq<string>)
    requires Inv(fs, delegate, es, seen)
    ensures Inv(fs, delegate, es + RecordChildren(fs, delegate, seen, dir, names).added,
                RecordChildren(fs, delegate, seen, dir, names).seen)
    decreases Subtree(fs, dir) - {dir}, 1, |names|
  {
    if names == [] {
      assert es + [] == es;
    } else {
      ChildSubtreeBelow(fs, dir, names[0]);
      var first := Record(fs, delegate, seen, dir + [names[0]]);
      RecordKeepsInv(fs, delegate, es, seen, dir + [names[0]]);
      var rest := RecordChildren(fs, delegate, first.seen, dir, names[1..]);
      RecordChildrenKeepsInv(fs, delegate, es + first.added, first.seen, dir, names[1..]);
      assert es + (first.added + rest.added) == es + first.added + rest.added;
    }
  }

  /** Recording never forgets a recorded path. */
  lemma {:induction false} RecordGrowsSeen(fs: FileSystem, delegate: Path -> Option<HashCode>, seen: set<Path>, p: Path)
    ensures seen <= Record(fs, delegate, seen, p).seen
    decreases Subtree(fs, p), 0
  {
    if p !in seen && SymlinkRoot(fs, p).None? && p in fs && fs[p].Dir? {
      assert p in Subtree(fs, p);
      RecordChildrenGrowsSeen(fs, delegate, seen + {p}, p, fs[p].children);
    }
  }

  lemma {:induction false} RecordChildrenGrowsSeen(fs: FileSystem, delegate: Path -> Option<HashCode>,
                                                   seen: set<Path>, dir: Path, names: seq<string>)
    ensures seen <= RecordChildren(fs, delegate, seen, dir, names).seen
    decreases Subtree(fs, dir) - {dir}, 1, |names|
  {
    if names != [] {
      ChildSubtreeBelow(fs, dir, names[0]);
      var first := Record(fs, delegate, seen, dir + [names[0]]);
      RecordGrowsSeen(fs, delegate, seen, dir + [names[0]]);
      RecordChildrenGrowsSeen(fs, delegate, first.seen, dir, names[1..]);
    }
  }

  /** Asking for the same path a second time records nothing more. */
  lemma RecordTwiceAddsNothing(fs: FileSystem, delegate: Path -> Option<HashCode>, seen: set<Path>, p: Path)
    ensures var s := Record(fs, delegate, seen, p);
      Record(fs, delegate, s.seen, p) == Step([], s.seen)
  {
    if p !in seen && SymlinkRoot(fs, p).None? && p in fs && fs[p].Dir? {
      assert p in Subtree(fs, p);
      RecordChildrenGrowsSeen(fs, delegate, seen + {p}, p, fs[p].children);
    }
  }

  /** A path at or below a symlink whose ancestors are not symlinks is
      recorded as exactly one root-symlink entry, for that symlink, naming
      its real target. */
  lemma RecordUnderSymlink(fs: FileSystem, delegate: Path -> Option<HashCode>, seen: set<Path>, p: Path, link: Path)
    requires 1 <= |link| && link <= p && IsSymlinkAt(fs, link)
    requires forall k | 1 <= k < |link| :: !IsSymlinkAt(fs, link[..k])
    requires p !in seen && link !in seen
    ensures Record(fs, delegate, seen, p) == Step([RootSymlinkEntry(link, fs[link].realTarget)], seen + {link})
  {
    SymlinkRootIs(fs, p, link);
  }

  // ---------------------------------------------------------------------
  // Recording a whole subtree

  /** The paths strictly below `dir` that run through one of `names`. */
  ghost function ChildSubtrees(fs: FileSystem, dir: Path, names: seq<string>): set<Path> {
    set q | q in fs && dir < q && q[|dir|] in names
  }

  lemma NoSymlinkRoot(fs: FileSystem, p: Path)
    requires forall k | 1 <= k <= |p| :: !IsSymlinkAt(fs, p[..k])
    ensures SymlinkRoot(fs, p).None?
  {
    var r := SymlinkRoot(fs, p);
  }

  lemma LeafSubtree(fs: FileSystem, p: Path)
    requires WellFormed(fs) && p in fs && !fs[p].Dir?
    ensures Subtree(fs, p) == {p}
  {
    forall q | q in Subtree(fs, p) ensures q == p {
      assert q[..|p|] == p;
    }
  }

  lemma DirSubtree(fs: FileSystem, p: Path)
    requires WellFormed(fs) && p in fs && fs[p].Dir?
    ensures Subtree(fs, p) == {p} + ChildSubtrees(fs, p, fs[p].children)
  {
    forall q | q in Subtree(fs, p) && q != p ensures q in ChildSubtrees(fs, p, fs[p].children) {
      assert q[..|p|] == p;
    }
  }

  lemma SplitChildSubtrees(fs: FileSystem, dir: Path, names: seq<string>)
    requires names != [] && names[0] !in names[1..]
    ensures ChildSubtrees(fs, dir, names)
         == Subtree(fs, dir + [names[0]]) + ChildSubtrees(fs, dir, names[1..])
    ensures Subtree(fs, dir + [names[0]]) !! ChildSubtrees(fs, dir, names[1..])
  {
    var c := dir + [names[0]];
    forall q | q in fs && dir < q
      ensures c <= q <==> q[|dir|] == names[0]
    {
      assert q[..|dir|] == dir;
      assert q[..|c|] == q[..|dir|] + [q[|dir|]];
    }
    forall q | q in ChildSubtrees(fs, dir, names) ensures q in Subtree(fs, c) || q in ChildSubtrees(fs, dir, names[1..]) {
      if q[|dir|] != names[0] {
        assert q[|dir|] in names[1..];
      }
    }
    forall q | q in Subtree(fs, c) ensures q in ChildSubtrees(fs, dir, names) {
      assert q[..|c|] == c;
      assert q[..|dir|] == dir;
    }
  }

  lemma {:induction false} RecordCoversSubtree(fs: FileSystem, delegate: Path -> Option<HashCode>, seen: set<Path>, p: Path)
    requires WellFormed(fs) && p in fs
    requires forall k | 1 <= k < |p| :: !IsSymlinkAt(fs, p[..k])
    requires seen !! Subtree(fs, p)
    ensures Record(fs, delegate, seen, p).seen == seen + Subtree(fs, p)
    ensures Paths(Record(fs, delegate, seen, p).added) == Subtree(fs, p)
    decreases Subtree(fs, p), 0
  {
    assert p in Subtree(fs, p);
    assert p[..|p|] == p;
    match fs[p]
    case Symlink(_) =>
      assert p != [];
      SymlinkRootIs(fs, p, p);
      LeafSubtree(fs, p);
    case File =>
      NoSymlinkRoot(fs, p);
      LeafSubtree(fs, p);
    case Dir(names) =>
      NoSymlinkRoot(fs, p);
      DirSubtree(fs, p);
      assert ListsChildren(fs, p);
      RecordChildrenCover(fs, delegate, seen + {p}, p, names);
      var children := RecordChildren(fs, delegate, seen + {p}, p, names);
      assert Paths([DirectoryEntry(p, delegate(p), names)] + children.added) == {p} + Paths(children.added);
  }

  lemma {:induction false} RecordChildrenCover(fs: FileSystem, delegate: Path -> Option<HashCode>,
                                               seen: set<Path>, dir: Path, names: seq<string>)
    requires WellFormed(fs) && dir in fs
    requires forall k | 1 <= k <= |dir| :: !IsSymlinkAt(fs, dir[..k])
    requires forall i | 0 <= i < |names| :: dir + [names[i]] in fs
    requires forall i, j | 0 <= i < j < |names| :: names[i] != names[j]
    requires seen !! ChildSubtrees(fs, dir, names)
    ensures RecordChildren(fs, delegate, seen, dir, names).seen == seen + ChildSubtrees(fs, dir, names)
    ensures Paths(RecordChildren(fs, delegate, seen, dir, names).added) == ChildSubtrees(fs, dir, names)
    decreases Subtree(fs, dir) - {dir}, 1, |names|
  {
    if names == [] {
      assert ChildSubtrees(fs, dir, names) == {};
    } else {
      var c := dir + [names[0]];
      ChildSubtreeBelow(fs, dir, names[0]);
      assert names[0] !in names[1..] by {
        forall i | 0 <= i < |names[1..]| ensures names[1..][i] != names[0] {
          assert names[1..][i] == names[i + 1];
        }
      }
      SplitChildSubtrees(fs, dir, names);
      forall k | 1 <= k < |c| ensures !IsSymlinkAt(fs, c[..k]) {
        assert c[..k] == dir[..k];
      }
      RecordCoversSubtree(fs, delegate, seen, c);
      var first := Record(fs, delegate, seen, c);
      assert forall i | 0 <= i < |names[1..]| :: names[1..][i] == names[i + 1];
      RecordChildrenCover(fs, delegate, first.seen, dir, names[1..]);
      var rest := RecordChildren(fs, delegate, first.seen, dir, names[1..]);
      assert Paths(first.added + rest.added) == Paths(first.added) + Paths(rest.added);
    }
  }

  lemma {:induction false} DistinctPathsCount(es: seq<Entry>)
    requires forall i, j | 0 <= i < j < |es| :: es[i].path != es[j].path
    ensures |Paths(es)| == |es|
  {
    if es != [] {
      var init, last := es[..|es| - 1], es[|es| - 1];
      DistinctPathsCount(init);
      assert Paths(es) == Paths(init) + {last.path} by {
        assert es == init + [last];
      }
      assert last.path !in Paths(init) by {
        forall i | 0 <= i < |init| ensures init[i].path != last.path {
          assert init[i] == es[i];
        }
      }
    }
  }

  /** Asking for an ordinary path none of whose ancestors is a symlink, in
      a well-formed tree, records one true entry for every node of its
      subtree and nothing else, when none of them was recorded before. */
  lemma RecordSubtree(fs: FileSystem, delegate: Path -> Option<HashCode>, es: seq<Entry>, seen: set<Path>, p: Path)
    requires WellFormed(fs) && p in fs
    requires forall k | 1 <= k < |p| :: !IsSymlinkAt(fs, p[..k])
    requires Inv(fs, delegate, es, seen) && seen !! Subtree(fs, p)
    ensures var s := Record(fs, delegate, seen, p);
      && s.seen == seen + Subtree(fs, p)
      && Paths(s.added) == Subtree(fs, p)
      && |s.added| == |Subtree(fs, p)|
      && forall e | e in s.added :: Describes(fs, delegate, e)
  {
    var s := Record(fs, delegate, seen, p);
    RecordCoversSubtree(fs, delegate, seen, p);
    RecordKeepsInv(fs, delegate, es, seen, p);
    var all := es + s.added;
    forall i, j | 0 <= i < j < |s.added| ensures s.added[i].path != s.added[j].path {
      assert all[|es| + i] == s.added[i] && all[|es| + j] == s.added[j];
    }
    DistinctPathsCount(s.added);
  }

  // ---------------------------------------------------------------------
  // The mutable objects

  /** The manifest: an append-only list of entries. */
  class BuildJobStateFileHashes {
    var entries: seq<Entry>

    constructor()
      ensures entries == []
    {
      entries := [];
    }

    method AddToEntries(e: Entry)
      modifies this
      ensures entries == old(entries) + [e]
    {
      entries := entries + [e];
    }
  }

  class RecordingFileHashLoader {
    const delegate: Path -> Option<HashCode>
    const fs: FileSystem
    const fileHashes: BuildJobStateFileHashes
    /** Where this loader's own entries start in the shared list. */
    ghost const start: nat
    var seen: set<Path>

    ghost predicate Valid()
      reads this, fileHashes
    {
      start <= |fileHashes.entries| && Inv(fs, delegate, fileHashes.entries[start..], seen)
    }

    constructor(delegate: Path -> Option<HashCode>, fs: FileSystem, fileHashes: BuildJobStateFileHashes)
      ensures this.delegate == delegate && this.fs == fs && this.fileHashes == fileHashes
      ensures seen == {} && start == |fileHashes.entries|
      ensures Valid()
    {
      this.delegate := delegate;
      this.fs := fs;
      this.fileHashes := fileHashes;
      start := |fileHashes.entries|;
      seen := {};
      new;
      assert fileHashes.entries[start..] == [];
    }

    /** Records `path` as described above and answers the delegate's hash
        for it; a path that is neither in the tree nor below a symlink is
        an error. */
    method Get(path: Path) returns (r: Result<Option<HashCode>, LoadError>)
      requires Valid()
      modifies this, fileHashes
      decreases Subtree(fs, path), 1
      ensures Valid()
      ensures r == if SymlinkRoot(fs, path).None? && path !in fs then Err(NoSuchFile(path)) else Ok(delegate(path))
      ensures fileHashes.entries == old(fileHashes.entries) + Record(fs, delegate, old(seen), path).added
      ensures seen == Record(fs, delegate, old(seen), path).seen
    {
      var hashCode := delegate(path);
      if path in seen {
        SeenIsInTree(fs, delegate, fileHashes.entries[start..], seen, path);
        assert fileHashes.entries + [] == fileHashes.entries;
        return Ok(hashCode);
      }
      var root := FindSymlinkRoot(fs, path);
      match root {
        case Some(link) =>
          if link !in seen {
            OutermostSymlinkIsItsOwnRoot(fs, path);
            Append(RootSymlinkEntry(link, fs[link].realTarget));
          } else {
            assert fileHashes.entries + [] == fileHashes.entries;
          }
          return Ok(hashCode);
        case None =>
          if path !in fs {
            assert fileHashes.entries + [] == fileHashes.entries;
            return Err(NoSuchFile(path));
          }
          if fs[path].Dir? {
            var names := fs[path].children;
            ghost var before := fileHashes.entries;
            ghost var children := RecordChildren(fs, delegate, seen + {path}, path, names);
            Append(DirectoryEntry(path, hashCode, names));
            GetChildren(path, names);
            assert fileHashes.entries == before + ([DirectoryEntry(path, hashCode, names)] + children.added);
          } else {
            Append(FileEntry(path, hashCode));
          }
          return Ok(hashCode);
      }
    }

    /** Records the children `names` of directory `dir`, one after another. */
    method GetChildren(dir: Path, names: seq<string>)
      requires Valid() && dir in fs
      modifies this, fileHashes
      decreases Subtree(fs, dir), 0
      ensures Valid()
      ensures fileHashes.entries == old(fileHashes.entries) + RecordChildren(fs, delegate, old(seen), dir, names).added
      ensures seen == RecordChildren(fs, delegate, old(seen), dir, names).seen
    {
      ghost var before := fileHashes.entries;
      ghost var target := RecordChildren(fs, delegate, seen, dir, names);
      assert dir in Subtree(fs, dir);
      assert names[0..] == names;
      var i := 0;
      while i < |names|
        invariant 0 <= i <= |names|
        invariant Valid()
        invariant fileHashes.entries + RecordChildren(fs, delegate, seen, dir, names[i..]).added == before + target.added
        invariant RecordChildren(fs, delegate, seen, dir, names[i..]).seen == target.seen
      {
        ChildSubtreeBelow(fs, dir, names[i]);
        RecordChildrenFrom(fs, delegate, seen, dir, names, i);
        ghost var entries := fileHashes.entries;
        ghost var first := Record(fs, delegate, seen, dir + [names[i]]);
        ghost var rest := RecordChildren(fs, delegate, first.seen, dir, names[i + 1..]);
        var _ := Get(dir + [names[i]]);
        assert entries + (first.added + rest.added) == fileHashes.entries + rest.added;
        i := i + 1;
      }
      assert names[i..] == [];
    }

    /** Appends one true entry for a path not yet recorded. */
    method Append(e: Entry)
      requires Valid() && Describes(fs, delegate, e) && e.path !in seen
      modifies this, fileHashes
      ensures Valid()
      ensures fileHashes.entries == old(fileHashes.entries) + [e]
      ensures seen == old(seen) + {e.path}
    {
      InvExtend(fs, delegate, fileHashes.entries[start..], seen, e);
      fileHashes.AddToEntries(e);
      seen := seen + {e.path};
      assert fileHashes.entries[start..] == old(fileHashes.entries[start..]) + [e];
    }
  }
}
