/** The recursive directory removal behind `DELE -r`. */
module RecursiveDelete {
  import opened FileTree

  /** What a call promises about the tree before and after. */
  ghost predicate Outcome(t0: Tree, t: Tree, denied: Denied, dir: Path, r: int) {
    && WellFormed(t) && OnlyRemovedUnder(t0, t, dir)
    && (r == 0 <==> Deletable(t0, denied, dir))
    && (r == 0 ==> Below(t, dir) == {})
    && (r != 0 && dir in t0 ==> dir in t)
  }

  /** Of the first `i` names, an entry is left exactly when some call on its subtree was refused. */
  ghost predicate Settled(t0: Tree, t: Tree, denied: Denied, dir: Path, names: seq<string>, i: nat)
    requires i <= |names|
  {
    forall k :: 0 <= k < i && dir + [names[k]] in t0 ==>
      (dir + [names[k]] in t <==> !Clear(t0, denied, dir + [names[k]]))
  }

  ghost predicate Untouched(t0: Tree, t: Tree, c: Path) {
    forall p :: p in t0 && Under(p, c) ==> p in t
  }

  ghost predicate Visited(t0: Tree, t: Tree, denied: Denied, dir: Path, names: seq<string>, i: nat)
    requires i <= |names|
  {
    && WellFormed(t) && OnlyRemovedUnder(t0, t, dir) && dir in t
    && Settled(t0, t, denied, dir, names, i)
    && forall k :: i <= k < |names| ==> Untouched(t0, t, dir + [names[k]])
  }

  // ---------------------------------------------------------------- trees

  lemma {:induction false} AncestorsStay(t: Tree, top: Path, p: Path)
    requires WellFormed(t) && p in t && Under(p, top)
    ensures top in t && (p != top ==> t[top].Directory?)
    decreases |p|
  {
    if p != top {
      AncestorsStay(t, top, Parent(p));
    }
  }

  /** The child of `dir` on the way to `p`. */
  function ChildTowards(dir: Path, p: Path): (c: Path)
    requires Under(p, dir) && p != dir
    ensures IsChild(c, dir) && Under(p, c)
  {
    p[..|dir| + 1]
  }

  lemma SiblingsApart(dir: Path, n: string, m: string, p: Path)
    requires n != m && Under(p, dir + [n])
    ensures !Under(p, dir + [m])
  {
    assert p[|dir|] == n;
  }

  /** Below a file or a link there is only the entry itself. */
  lemma LeafClear(t: Tree, denied: Denied, c: Path)
    requires WellFormed(t) && c in t && !t[c].Directory?
    ensures Clear(t, denied, c) <==> c !in denied.stat && c !in denied.unlink
  {
    forall p | p in t && Under(p, c)
      ensures p == c
    {
      AncestorsStay(t, c, p);
    }
  }

  /** A directory can be deleted exactly when its own calls are allowed and every child is clear. */
  lemma DeletableByChildren(t: Tree, denied: Denied, dir: Path)
    requires WellFormed(t) && dir in t && t[dir].Directory?
    ensures Deletable(t, denied, dir) <==>
      Permits(denied, dir, t[dir]) && forall c :: c in Children(t, dir) ==> Clear(t, denied, c)
  {
    if Permits(denied, dir, t[dir]) && forall c :: c in Children(t, dir) ==> Clear(t, denied, c) {
      forall p | p in t && Under(p, dir) && p != dir
        ensures p !in denied.stat && Permits(denied, p, t[p])
      {
        AncestorsStay(t, ChildTowards(dir, p), p);
        assert ChildTowards(dir, p) in Children(t, dir);
      }
    }
    if Deletable(t, denied, dir) {
      forall c | c in Children(t, dir)
        ensures Clear(t, denied, c)
      {
        assert forall p :: Under(p, c) ==> Under(p, dir) && p != dir;
      }
    }
  }

  /** A subtree that has not been visited is as clear as it was at the start. */
  lemma UnvisitedSame(t0: Tree, t: Tree, denied: Denied, dir: Path, c: Path)
    requires OnlyRemovedUnder(t0, t, dir)
    requires Untouched(t0, t, c)
    ensures Clear(t, denied, c) <==> Clear(t0, denied, c)
    ensures c in t0 ==> (Deletable(t, denied, c) <==> Deletable(t0, denied, c))
    ensures Below(t, c) == Below(t0, c)
  {
  }

  // ---------------------------------------------------------------- one name

  lemma SettleOne(t0: Tree, t: Tree, t': Tree, denied: Denied, dir: Path, names: seq<string>, i: nat)
    requires i < |names| && Distinct(names) && Settled(t0, t, denied, dir, names, i)
    requires var c := dir + [names[i]];
      OnlyRemovedUnder(t, t', c) && (c in t0 ==> (c in t' <==> !Clear(t0, denied, c)))
    ensures Settled(t0, t', denied, dir, names, i + 1)
  {
    hide Clear;
    forall k | 0 <= k < i
      ensures dir + [names[k]] in t' <==> dir + [names[k]] in t
    {
      SiblingsApart(dir, names[k], names[i], dir + [names[k]]);
    }
  }

  lemma StillUntouched(t0: Tree, t: Tree, t': Tree, dir: Path, n: string, m: string)
    requires n != m && Untouched(t0, t, dir + [m]) && OnlyRemovedUnder(t, t', dir + [n])
    ensures Untouched(t0, t', dir + [m])
  {
    forall p | p in t0 && Under(p, dir + [m])
      ensures p in t'
    {
      SiblingsApart(dir, m, n, p);
    }
  }

  lemma RemovedFurther(t0: Tree, t: Tree, t': Tree, dir: Path, c: Path)
    requires OnlyRemovedUnder(t0, t, dir) && dir in t && IsChild(c, dir) && OnlyRemovedUnder(t, t', c)
    ensures OnlyRemovedUnder(t0, t', dir) && dir in t'
  {
    assert forall p :: Under(p, c) ==> Under(p, dir) && p != dir;
  }

  /** Visiting one name: either its subtree stays because some call on it is refused, or all of it
      goes. */
  lemma VisitOne(t0: Tree, t: Tree, t': Tree, denied: Denied, dir: Path, names: seq<string>, i: nat)
    requires i < |names| && Distinct(names) && Visited(t0, t, denied, dir, names, i)
    requires var c := dir + [names[i]];
      && WellFormed(t') && OnlyRemovedUnder(t, t', c)
      && (c in t0 ==> (c in t' <==> !Clear(t0, denied, c)))
    ensures Visited(t0, t', denied, dir, names, i + 1)
  {
    hide Clear, Settled, Untouched, WellFormed, OnlyRemovedUnder;
    RemovedFurther(t0, t, t', dir, dir + [names[i]]);
    SettleOne(t0, t, t', denied, dir, names, i);
    forall k | i + 1 <= k < |names|
      ensures Untouched(t0, t', dir + [names[k]])
    {
      StillUntouched(t0, t, t', dir, names[i], names[k]);
    }
  }

  lemma BelowShrinks(t0: Tree, t: Tree, dir: Path, c: Path)
    requires OnlyRemovedUnder(t0, t, dir) && IsChild(c, dir) && dir in t0
    ensures |Below(t, c)| < |Below(t0, dir)|
  {
    assert Below(t, c) <= Below(t0, dir) - {dir};
    SubsetSize(Below(t, c), Below(t0, dir) - {dir});
  }

  lemma {:induction false} SubsetSize<T>(a: set<T>, b: set<T>)
    requires a <= b
    ensures |a| <= |b|
  {
    if a != {} {
      var x :| x in a;
      SubsetSize(a - {x}, b - {x});
    }
  }

  // ---------------------------------------------------------------- the end of the loop

  lemma HasChild(t: Tree, dir: Path, p: Path)
    requires WellFormed(t) && p in t && Under(p, dir) && p != dir
    ensures Children(t, dir) != {}
  {
    AncestorsStay(t, ChildTowards(dir, p), p);
    assert ChildTowards(dir, p) in Children(t, dir);
  }

  lemma ChildSettled(t0: Tree, t: Tree, denied: Denied, dir: Path, names: seq<string>, c: Path)
    requires Settled(t0, t, denied, dir, names, |names|) && Lists(names, t0, dir) && c in Children(t0, dir)
    ensures c in t <==> !Clear(t0, denied, c)
  {
    hide Clear;
    var n := c[|c| - 1];
    assert c == dir + [n] && n in names;
    var k :| 0 <= k < |names| && names[k] == n;
  }

  lemma ChildrenSettled(t0: Tree, t: Tree, denied: Denied, dir: Path, names: seq<string>)
    requires OnlyRemovedUnder(t0, t, dir)
    requires Settled(t0, t, denied, dir, names, |names|)
    requires Lists(names, t0, dir)
    ensures Children(t, dir) == {} <==> forall c :: c in Children(t0, dir) ==> Clear(t0, denied, c)
  {
    hide Clear, Settled, Lists, IsChild, Under;
    forall c | c in Children(t0, dir)
      ensures c in t <==> !Clear(t0, denied, c)
    {
      ChildSettled(t0, t, denied, dir, names, c);
    }
    assert forall c :: c in Children(t, dir) <==> c in Children(t0, dir) && c in t;
  }

  lemma EmptyRemoved(t: Tree, dir: Path)
    requires WellFormed(t) && Children(t, dir) == {}
    ensures WellFormed(t - {dir}) && Below(t - {dir}, dir) == {}
    ensures OnlyRemovedUnder(t, t - {dir}, dir)
  {
    forall p | p in t && Under(p, dir)
      ensures p == dir
    {
      if p != dir {
        HasChild(t, dir, p);
      }
    }
    forall p | p in t && p != []
      ensures Parent(p) != dir
    {
      assert Parent(p) == dir ==> p in Children(t, dir);
    }
  }

  /** Removing the directory itself succeeds exactly when everything below it could go. */
  lemma Finished(t0: Tree, t: Tree, denied: Denied, dir: Path, names: seq<string>, t': Tree, r: int)
    requires WellFormed(t0) && dir in t0 && t0[dir].Directory? && dir !in denied.opendir
    requires Visited(t0, t, denied, dir, names, |names|)
    requires Lists(names, t0, dir)
    requires r == if dir in t && t[dir].Directory? && Children(t, dir) == {} && dir !in denied.rmdir then 0 else -1
    requires t' == if r == 0 then t - {dir} else t
    ensures Outcome(t0, t', denied, dir, r)
  {
    hide Clear, Deletable, Settled, Children, Lists;
    DeletableByChildren(t0, denied, dir);
    ChildrenSettled(t0, t, denied, dir, names);
    if r == 0 {
      EmptyRemoved(t, dir);
    }
  }

  /** A refusal anywhere below a child is a refusal below the directory. */
  lemma ChildFails(t0: Tree, denied: Denied, dir: Path, c: Path)
    requires IsChild(c, dir) && !Clear(t0, denied, c)
    ensures !Deletable(t0, denied, dir)
  {
    var p :| p in t0 && Under(p, c) && !(p !in denied.stat && Permits(denied, p, t0[p]));
    assert Under(p, dir) && p != dir;
  }

  // ---------------------------------------------------------------- the deletion

  /** What visiting one entry promises: it goes exactly when nothing on its subtree is refused, and a
      failure is a refusal. */
  ghost predicate EntryOutcome(t: Tree, t': Tree, denied: Denied, c: Path, failed: bool) {
    && WellFormed(t') && OnlyRemovedUnder(t, t', c)
    && (failed ==> c in t && t[c].Directory? && !Clear(t, denied, c) && c in t')
    && (!failed && c in t ==> (c in t' <==> !Clear(t, denied, c)))
  }

  /** The body of the loop: examine the entry itself, recurse into a directory, unlink anything else.
      Only a failed recursion stops the loop. */
  method RemoveEntry(fs: FileSystem, filepath: Path) returns (failed: bool)
    requires WellFormed(fs.tree)
    modifies fs`tree
    ensures EntryOutcome(old(fs.tree), fs.tree, fs.denied, filepath, failed)
    decreases |Below(fs.tree, filepath)|, 2
  {
    hide Clear, Deletable;
    ghost var t := fs.tree;
    var st := fs.Lstat(filepath);
    if st.None? {
      StatRefused(t, fs.denied, filepath);
      return false;
    }
    if st.value.Directory? {
      DirectoryClear(t, fs.denied, filepath);
      var s := DeleteDirectoryRecursively(fs, filepath);
      EmptiedBelow(fs.tree, filepath);
      return s != 0;
    }
    LeafClear(t, fs.denied, filepath);
    LeafRemoved(t, filepath);
    var _ := fs.Unlink(filepath);
    failed := false;
  }

  /** An entry the loop could not get rid of. */
  ghost predicate Stuck(t0: Tree, t: Tree, denied: Denied, dir: Path) {
    exists c :: c in Children(t0, dir) && !Clear(t0, denied, c) && c in t
  }

  /** Opens the directory and visits its entries, up to the first directory that could not be removed. */
  method EmptyDirectory(fs: FileSystem, path: Path) returns (done: bool, ghost names: seq<string>)
    requires WellFormed(fs.tree)
    modifies fs`tree
    ensures done ==>
      && path in old(fs.tree) && old(fs.tree)[path].Directory? && path !in fs.denied.opendir
      && Lists(names, old(fs.tree), path) && Visited(old(fs.tree), fs.tree, fs.denied, path, names, |names|)
    ensures !done ==> Outcome(old(fs.tree), fs.tree, fs.denied, path, -1)
    ensures !done ==>
      if path in old(fs.tree) && old(fs.tree)[path].Directory? && path !in fs.denied.opendir
      then Stuck(old(fs.tree), fs.tree, fs.denied, path) else fs.tree == old(fs.tree)
    decreases |Below(fs.tree, path)|, 0
  {
    hide Clear, Deletable, Visited, Outcome, EntryOutcome, Children, WellFormed, Untouched, Lists, Stuck;
    ghost var t0, denied := fs.tree, fs.denied;
    var dir := fs.Opendir(path);
    if dir.None? {
      NotOpened(t0, denied, path);
      return false, [];
    }
    var listed := dir.value;
    NothingVisited(t0, denied, path, listed);
    var i := 0;
    while i < |listed|
      invariant 0 <= i <= |listed|
      invariant Visited(t0, fs.tree, denied, path, listed, i)
    {
      ghost var t := fs.tree;
      var filepath := path + [listed[i]];
      EntryUntouched(t0, t, denied, path, listed, i);
      if IsDots(listed[i]) {
        DotsAbsent(t0, filepath);
      } else {
        var failed := RemoveEntry(fs, filepath);
        if failed {
          FailedInside(t0, t, fs.tree, denied, path, listed, i);
          return false, listed;
        }
      }
      EntryGone(t0, t, fs.tree, denied, path, listed, i);
      i := i + 1;
    }
    done, names := true, listed;
  }

  /** Returns 0 exactly when no call was refused anywhere in the subtree, and then exactly the subtree
      is gone. Otherwise the directory itself stays and only entries strictly below it were removed.
      Links met on the way go as entries; what they point to is outside and untouched. */
  method DeleteDirectoryRecursively(fs: FileSystem, path: Path) returns (r: int)
    requires WellFormed(fs.tree)
    modifies fs`tree
    ensures Outcome(old(fs.tree), fs.tree, fs.denied, path, r)
    decreases |Below(fs.tree, path)|, 1
  {
    hide Clear, Deletable, Visited, Outcome, Children, WellFormed, Lists, Stuck;
    ghost var t0 := fs.tree;
    ghost var names;
    var done;
    done, names := EmptyDirectory(fs, path);
    if !done {
      return -1;
    }
    ghost var t := fs.tree;
    r := fs.Rmdir(path);
    Finished(t0, t, fs.denied, path, names, fs.tree, r);
  }

  lemma EntryGone(t0: Tree, t: Tree, t': Tree, denied: Denied, dir: Path, names: seq<string>, i: nat)
    requires i < |names| && Lists(names, t0, dir) && dir in t0 && Visited(t0, t, denied, dir, names, i)
    requires var c := dir + [names[i]];
      EntryOutcome(t, t', denied, c, false) || (t' == t && c !in t0)
    ensures Visited(t0, t', denied, dir, names, i + 1)
  {
    hide Clear, Visited;
    EntryUntouched(t0, t, denied, dir, names, i);
    VisitOne(t0, t, t', denied, dir, names, i);
  }

  lemma NothingVisited(t0: Tree, denied: Denied, dir: Path, names: seq<string>)
    requires WellFormed(t0) && dir in t0
    ensures Visited(t0, t0, denied, dir, names, 0)
  {
  }

  lemma EntryUntouched(t0: Tree, t: Tree, denied: Denied, dir: Path, names: seq<string>, i: nat)
    requires i < |names| && dir in t0 && Visited(t0, t, denied, dir, names, i)
    ensures var c := dir + [names[i]];
      && WellFormed(t) && dir in t && OnlyRemovedUnder(t0, t, dir)
      && (c in t <==> c in t0)
      && (Clear(t, denied, c) <==> Clear(t0, denied, c))
      && |Below(t, c)| < |Below(t0, dir)|
  {
    var c := dir + [names[i]];
    assert Under(c, c);
    UnvisitedSame(t0, t, denied, dir, c);
    BelowShrinks(t0, t, dir, c);
  }

  lemma NotOpened(t0: Tree, denied: Denied, path: Path)
    requires WellFormed(t0) && (path !in t0 || !t0[path].Directory? || path in denied.opendir)
    ensures Outcome(t0, t0, denied, path, -1)
  {
  }

  lemma StatRefused(t: Tree, denied: Denied, c: Path)
    requires c !in t || c in denied.stat
    ensures c in t ==> !Clear(t, denied, c)
  {
  }

  lemma DotsAbsent(t0: Tree, c: Path)
    requires WellFormed(t0) && c != [] && IsDots(c[|c| - 1])
    ensures c !in t0
  {
  }

  lemma DirectoryClear(t0: Tree, denied: Denied, c: Path)
    requires c in t0 && t0[c].Directory? && c !in denied.stat
    ensures Clear(t0, denied, c) <==> Deletable(t0, denied, c)
  {
  }

  lemma EmptiedBelow(t': Tree, c: Path)
    ensures Below(t', c) == {} ==> c !in t'
  {
    assert c in t' ==> c in Below(t', c);
  }

  lemma LeafRemoved(t: Tree, c: Path)
    requires WellFormed(t) && c in t && !t[c].Directory?
    ensures WellFormed(t - {c}) && OnlyRemovedUnder(t, t - {c}, c) && OnlyRemovedUnder(t, t, c)
  {
  }

  lemma FailedInside(t0: Tree, t: Tree, t': Tree, denied: Denied, dir: Path, names: seq<string>, i: nat)
    requires i < |names| && dir in t0 && Visited(t0, t, denied, dir, names, i)
    requires EntryOutcome(t, t', denied, dir + [names[i]], true)
    ensures Outcome(t0, t', denied, dir, -1) && Stuck(t0, t', denied, dir)
  {
    hide Clear, Visited, Deletable;
    assert IsChild(dir + [names[i]], dir);
    EntryUntouched(t0, t, denied, dir, names, i);
    RemovedFurther(t0, t, t', dir, dir + [names[i]]);
    ChildFails(t0, denied, dir, dir + [names[i]]);
  }

  // ---------------------------------------------------------------- a target that is a link

  /** What a deletion through a link leaves of the directory it leads to: no entry exactly when there was
      none, or it can be opened and no call on an entry is refused. */
  ghost predicate EmptiedExactly(t0: Tree, t: Tree, denied: Denied, dir: Path) {
    Children(t, dir) == {} <==>
      Children(t0, dir) == {}
      || (dir !in denied.opendir && forall c :: c in Children(t0, dir) ==> Clear(t0, denied, c))
  }

  lemma EmptiedAll(t0: Tree, t: Tree, denied: Denied, dir: Path, names: seq<string>)
    requires dir !in denied.opendir && Lists(names, t0, dir) && Visited(t0, t, denied, dir, names, |names|)
    ensures EmptiedExactly(t0, t, denied, dir)
  {
    hide Clear, Lists, Settled, Untouched;
    ChildrenSettled(t0, t, denied, dir, names);
  }

  lemma EmptiedNot(t0: Tree, t: Tree, denied: Denied, dir: Path)
    requires dir in t0 && t0[dir].Directory?
    requires if dir !in denied.opendir then Stuck(t0, t, denied, dir) else t == t0
    ensures EmptiedExactly(t0, t, denied, dir)
  {
    hide Clear;
    if dir !in denied.opendir {
      var c :| c in Children(t0, dir) && !Clear(t0, denied, c) && c in t;
      assert c in Children(t, dir);
    }
  }

  /** The recursive deletion named by a link to `dir`, when none of the links on the way lies in `dir`:
      the calls on its entries are those on the entries of `dir`, and the link itself is no directory that
      could be removed. */
  method DeleteLinked(fs: FileSystem, dir: Path) returns (r: int)
    requires WellFormed(fs.tree) && dir in fs.tree && fs.tree[dir].Directory?
    modifies fs`tree
    ensures WellFormed(fs.tree) && OnlyRemovedUnder(old(fs.tree), fs.tree, dir) && dir in fs.tree
    ensures r == -1 && EmptiedExactly(old(fs.tree), fs.tree, fs.denied, dir)
  {
    hide Clear, Deletable, Children, WellFormed, Lists, Stuck, EmptiedExactly, Settled, Untouched;
    ghost var t0 := fs.tree;
    ghost var names;
    var done;
    done, names := EmptyDirectory(fs, dir);
    if done {
      EmptiedAll(t0, fs.tree, fs.denied, dir, names);
    } else {
      EmptiedNot(t0, fs.tree, fs.denied, dir);
    }
    r := -1;
  }

  /** The same when some of the links lie in `dir`: every call but the first goes through them, and fails
      once one of them is gone. The deletion is never complete; only entries strictly below `dir` go. */
  method DeleteThroughLinks(fs: FileSystem, links: set<Path>, dir: Path, top: bool) returns (r: int)
    requires WellFormed(fs.tree)
    modifies fs`tree
    ensures WellFormed(fs.tree) && OnlyRemovedUnder(old(fs.tree), fs.tree, dir)
    ensures top ==> r == -1 && (dir in old(fs.tree) ==> dir in fs.tree)
    decreases |Below(fs.tree, dir)|
  {
    hide WellFormed, Lists, Children;
    ghost var t0 := fs.tree;
    if !(links <= fs.tree.Keys) {
      return -1;
    }
    var names := fs.Opendir(dir);
    if names.None? {
      return -1;
    }
    var i := 0;
    while i < |names.value|
      invariant 0 <= i <= |names.value|
      invariant WellFormed(fs.tree) && OnlyRemovedUnder(t0, fs.tree, dir) && dir in fs.tree && dir in t0
    {
      ghost var t := fs.tree;
      var filepath := dir + [names.value[i]];
      i := i + 1;
      assert IsChild(filepath, dir) && Under(filepath, dir) && !Under(dir, filepath);
      if IsDots(filepath[|filepath| - 1]) || !(links <= fs.tree.Keys) {
        continue;
      }
      var st := fs.Lstat(filepath);
      if st.None? {
        continue;
      }
      BelowShrinks(t0, t, dir, filepath);
      if st.value.Directory? {
        var s := DeleteThroughLinks(fs, links, filepath, false);
        RemovedBelow(t0, t, fs.tree, dir, filepath);
        if s != 0 {
          return -1;
        }
      } else {
        LeafRemoved(t, filepath);
        var _ := fs.Unlink(filepath);
        RemovedBelow(t0, t, fs.tree, dir, filepath);
      }
    }
    if top || !(links <= fs.tree.Keys) {
      return -1;
    }
    ghost var t := fs.tree;
    r := fs.Rmdir(dir);
    if r == 0 {
      EmptyRemoved(t, dir);
    }
  }

  lemma RemovedBelow(t0: Tree, t: Tree, t': Tree, dir: Path, c: Path)
    requires OnlyRemovedUnder(t0, t, dir) && OnlyRemovedUnder(t, t', c) && IsChild(c, dir) && dir in t
    ensures OnlyRemovedUnder(t0, t', dir) && dir in t'
  {
    assert Under(c, dir) && !Under(dir, c);
  }
}
