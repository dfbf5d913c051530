/** The file system as the program meets it: a finite tree of named entries and the system calls on
    it, any of which may be refused for a given path. */
module FileTree {
  import opened Options

  /** The components of an absolute path; the root is the empty path. */
  type Path = seq<string>

  datatype Kind = Regular | Symlink(target: Path) | Directory

  type Tree = map<Path, Kind>

  /** The paths on which each call fails, for whatever reason the system has. */
  datatype Denied = Denied(opendir: set<Path>, stat: set<Path>, unlink: set<Path>, rmdir: set<Path>)

  function Parent(p: Path): Path
    requires p != []
  {
    p[..|p| - 1]
  }

  predicate IsDots(name: string) {
    name == "." || name == ".."
  }

  /** Every entry but the root hangs, under a proper name, in a directory of the tree. */
  ghost predicate WellFormed(t: Tree) {
    forall p :: p in t && p != [] ==>
      Parent(p) in t && t[Parent(p)].Directory? && !IsDots(p[|p| - 1])
  }

  predicate IsChild(p: Path, dir: Path) {
    p != [] && Parent(p) == dir
  }

  /** `p` is `top` or lies below it. */
  predicate Under(p: Path, top: Path) {
    top <= p
  }

  function Below(t: Tree, top: Path): set<Path> {
    set p | p in t && Under(p, top)
  }

  function Children(t: Tree, dir: Path): set<Path> {
    set p | p in t && IsChild(p, dir)
  }

  /** Nothing is created or changed, and nothing outside `top` is removed. */
  ghost predicate OnlyRemovedUnder(t: Tree, t': Tree, top: Path) {
    && (forall p :: p in t' ==> p in t && t'[p] == t[p])
    && (forall p :: p in t && !Under(p, top) ==> p in t')
  }

  /** No call the deletion needs is refused on this entry. */
  predicate Permits(denied: Denied, p: Path, kind: Kind) {
    if kind.Directory? then p !in denied.opendir && p !in denied.rmdir else p !in denied.unlink
  }

  /** Neither on `c` nor on anything below it is a needed call refused. */
  ghost predicate Clear(t: Tree, denied: Denied, c: Path) {
    forall p :: p in t && Under(p, c) ==> p !in denied.stat && Permits(denied, p, t[p])
  }

  /** The same for the directory a deletion starts from, which is opened without being examined. */
  ghost predicate Deletable(t: Tree, denied: Denied, top: Path) {
    && top in t && t[top].Directory? && Permits(denied, top, t[top])
    && forall p :: p in t && Under(p, top) && p != top ==> p !in denied.stat && Permits(denied, p, t[p])
  }

  ghost predicate Distinct(names: seq<string>) {
    forall i, j :: 0 <= i < j < |names| ==> names[i] != names[j]
  }

  /** A directory listing: the two dot entries and every child, each once. */
  ghost predicate Lists(names: seq<string>, t: Tree, dir: Path) {
    Distinct(names) && forall n :: n in names <==> IsDots(n) || dir + [n] in t
  }

  /** How many symbolic links in a row are followed. */
  const MAX_LINKS: nat := 40

  /** Where a path leads once links are followed; the target of a link is a full path without links on
      the way. */
  function Follow(t: Tree, path: Path, hops: nat): (found: Option<Path>)
    ensures found.Some? ==> found.value in t && !t[found.value].Symlink?
    decreases hops
  {
    if path !in t then None
    else if !t[path].Symlink? then Some(path)
    else if hops == 0 then None
    else Follow(t, t[path].target, hops - 1)
  }

  /** The links on the way from a path to where it leads. */
  function Chain(t: Tree, path: Path, hops: nat): set<Path>
    decreases hops
  {
    if path !in t || !t[path].Symlink? || hops == 0 then {} else {path} + Chain(t, t[path].target, hops - 1)
  }

  class FileSystem {
    var tree: Tree
    const denied: Denied

    constructor (tree: Tree, denied: Denied)
      ensures this.tree == tree && this.denied == denied
    {
      this.tree, this.denied := tree, denied;
    }

    /** The names `readdir` will yield, in any order: "." and ".." and each child once. */
    method Opendir(path: Path) returns (names: Option<seq<string>>)
      ensures names.Some? <==> path in tree && tree[path].Directory? && path !in denied.opendir
      ensures names.Some? ==> Lists(names.value, tree, path)
    {
      if path !in tree || !tree[path].Directory? || path in denied.opendir {
        return None;
      }
      var rest := {".", ".."} + set p | p in tree && IsChild(p, path) :: p[|p| - 1];
      forall n
        ensures n in rest <==> IsDots(n) || path + [n] in tree
      {
        assert IsChild(path + [n], path);
        assert (path + [n])[|path + [n]| - 1] == n;
        if n in rest && !IsDots(n) {
          var p :| p in tree && IsChild(p, path) && p[|p| - 1] == n;
          assert p == path + [n];
        }
      }
      ghost var all := rest;
      var listed: seq<string> := [];
      while rest != {}
        invariant forall n :: n in all <==> n in rest || n in listed
        invariant forall n :: n in listed ==> n !in rest
        invariant forall i, j :: 0 <= i < j < |listed| ==> listed[i] != listed[j]
        decreases rest
      {
        var n :| n in rest;
        listed, rest := listed + [n], rest - {n};
      }
      names := Some(listed);
    }

    /** Examines what the path leads to. */
    method Stat(path: Path) returns (found: Option<Path>)
      ensures found == if path in denied.stat then None else Follow(tree, path, MAX_LINKS)
    {
      found := if path in denied.stat then None else Follow(tree, path, MAX_LINKS);
    }

    /** Examines the entry itself: a symbolic link is not followed. */
    method Lstat(path: Path) returns (kind: Option<Kind>)
      ensures kind == if path in tree && path !in denied.stat then Some(tree[path]) else None
    {
      kind := if path in tree && path !in denied.stat then Some(tree[path]) else None;
    }

    method Unlink(path: Path) returns (r: int)
      modifies this`tree
      ensures r == if old(path in tree && !tree[path].Directory?) && path !in denied.unlink then 0 else -1
      ensures tree == if r == 0 then old(tree) - {path} else old(tree)
    {
      if path in tree && !tree[path].Directory? && path !in denied.unlink {
        tree := tree - {path};
        return 0;
      }
      r := -1;
    }

    /** Only an empty directory can be removed. */
    method Rmdir(path: Path) returns (r: int)
      modifies this`tree
      ensures r == if old(path in tree && tree[path].Directory? && Children(tree, path) == {})
        && path !in denied.rmdir then 0 else -1
      ensures tree == if r == 0 then old(tree) - {path} else old(tree)
    {
      if path in tree && tree[path].Directory? && Children(tree, path) == {} && path !in denied.rmdir {
        tree := tree - {path};
        return 0;
      }
      r := -1;
    }
  }
}
