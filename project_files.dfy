/** The project's file tree as the file-hash recorder sees it, and the
    search for the outermost symlink on a path.

    The tree is an in-memory map from project-relative paths to nodes; a
    symlink node carries the real path of what it links to, as resolving
    the link on disk would give it. Nothing below a symlink is part of the
    project tree: it lives outside the project. */
module ProjectFiles {
  import opened Wrappers

  /** A project-relative path, one element per name; [] is the project root. */
  type Path = seq<string>

  datatype Node =
    | File
    | Dir(children: seq<string>)
    | Symlink(realTarget: string)

  type FileSystem = map<Path, Node>

  predicate IsSymlinkAt(fs: FileSystem, p: Path) {
    p in fs && fs[p].Symlink?
  }

  /** A real tree: the root is a directory, every proper prefix of a path
      is a directory that lists the next name as a child, and every
      directory lists distinct children that all exist. */
  ghost predicate WellFormed(fs: FileSystem) {
    && [] in fs && fs[[]].Dir?
    && (forall q, k | q in fs && 0 <= k < |q| ::
          q[..k] in fs && fs[q[..k]].Dir? && q[k] in fs[q[..k]].children)
    && (forall d | d in fs && fs[d].Dir? :: ListsChildren(fs, d))
  }

  ghost predicate ListsChildren(fs: FileSystem, d: Path)
    requires d in fs && fs[d].Dir?
  {
    var names := fs[d].children;
    && (forall i | 0 <= i < |names| :: d + [names[i]] in fs)
    && (forall i, j | 0 <= i < j < |names| :: names[i] != names[j])
  }

  /** The paths of the tree at or below `p`. */
  ghost function Subtree(fs: FileSystem, p: Path): set<Path> {
    set q | q in fs && p <= q
  }

  lemma ChildSubtreeBelow(fs: FileSystem, dir: Path, name: string)
    ensures Subtree(fs, dir + [name]) <= Subtree(fs, dir) - {dir}
  {
    forall q | q in Subtree(fs, dir + [name]) ensures dir <= q && q != dir {
      assert q[..|dir| + 1] == dir + [name];
      assert q[..|dir|] == (dir + [name])[..|dir|];
    }
  }

  // ---------------------------------------------------------------------
  // The outermost symlink on a path

  /** The shortest prefix of `p`, of length at least `k`, that is a symlink. */
  function SymlinkRootFrom(fs: FileSystem, p: Path, k: nat): (r: Option<Path>)
    decreases |p| + 1 - k
    ensures r.Some? ==> k <= |r.value| <= |p| && r.value == p[..|r.value|] && IsSymlinkAt(fs, r.value)
    ensures forall j | k <= j <= |p| && (r.None? || j < |r.value|) :: !IsSymlinkAt(fs, p[..j])
  {
    if k > |p| then None
    else if IsSymlinkAt(fs, p[..k]) then Some(p[..k])
    else SymlinkRootFrom(fs, p, k + 1)
  }

  /** The outermost (closest to the project root) symlink among `p` and its
      ancestors below the root, if there is one. */
  function SymlinkRoot(fs: FileSystem, p: Path): (r: Option<Path>)
    ensures r.Some? ==>
      && 1 <= |r.value| <= |p| && r.value == p[..|r.value|] && IsSymlinkAt(fs, r.value)
      && forall k | 1 <= k < |r.value| :: !IsSymlinkAt(fs, p[..k])
    ensures r.None? ==> forall k | 1 <= k <= |p| :: !IsSymlinkAt(fs, p[..k])
  {
    SymlinkRootFrom(fs, p, 1)
  }

  /** A symlink prefix with no symlink above it is the outermost symlink of
      every path that runs through it. */
  lemma SymlinkRootIs(fs: FileSystem, p: Path, link: Path)
    requires 1 <= |link| && link <= p && IsSymlinkAt(fs, link)
    requires forall k | 1 <= k < |link| :: !IsSymlinkAt(fs, link[..k])
    ensures SymlinkRoot(fs, p) == Some(link)
  {
    assert p[..|link|] == link;
    forall k | 1 <= k < |link| ensures !IsSymlinkAt(fs, p[..k]) {
      assert p[..k] == link[..k];
    }
    var r := SymlinkRoot(fs, p);
    if r.Some? {
      assert r.value == p[..|r.value|];
    }
  }

  /** The outermost symlink of a path is the outermost symlink of itself. */
  lemma OutermostSymlinkIsItsOwnRoot(fs: FileSystem, p: Path)
    requires SymlinkRoot(fs, p).Some?
    ensures SymlinkRoot(fs, SymlinkRoot(fs, p).value) == SymlinkRoot(fs, p)
  {
    var link := SymlinkRoot(fs, p).value;
    forall k | 1 <= k < |link| ensures !IsSymlinkAt(fs, link[..k]) {
      assert link[..k] == p[..k];
    }
    SymlinkRootIs(fs, link, link);
  }

  /** The walk from `p` itself up towards the project root, remembering the
      last symlink seen: that one is the outermost. */
  method FindSymlinkRoot(fs: FileSystem, p: Path) returns (root: Option<Path>)
    ensures root == SymlinkRoot(fs, p)
  {
    root := None;
    var k := |p|;
    while k >= 1
      invariant 0 <= k <= |p|
      invariant root == SymlinkRootFrom(fs, p, k + 1)
    {
      if IsSymlinkAt(fs, p[..k]) {
        root := Some(p[..k]);
      }
      k := k - 1;
    }
  }

  /** The path with forward slashes between its names. */
  function UnixPath(p: Path): string {
    if |p| == 0 then ""
    else if |p| == 1 then p[0]
    else UnixPath(p[..|p| - 1]) + "/" + p[|p| - 1]
  }
}
