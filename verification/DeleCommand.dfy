/** The DELE command: its options, its checks and its replies. */
module DeleCommand {
  import opened CommandOptions
  import opened Options
  import opened FileTree
  import opened RecursiveDelete
  import opened Replies

  datatype DeleArgs = DeleArgs(recursive: bool, force: bool, target: string)

  const DELE_OPTIONS: set<string> := {"-r", "-f"}

  /** Position `k` holds the only argument but `-r` and `-f`. */
  predicate IsTarget(args: seq<string>, k: int) {
    OnlyOperand(args, {"-r", "-f"}, k)
  }

  /** Options may stand anywhere and be repeated; there must be exactly one target. */
  method ParseDeleParams(args: seq<string>) returns (r: Option<DeleArgs>)
    ensures r.Some? <==> exists k :: IsTarget(args, k)
    ensures r.Some? ==> (r.value.recursive <==> "-r" in args) && (r.value.force <==> "-f" in args)
    ensures forall k :: IsTarget(args, k) ==> r.Some? && r.value.target == args[k]
  {
    var recursive, force := false, false;
    var target: Option<string> := None;
    var i := 0;
    while i < |args|
      invariant 0 <= i <= |args|
      invariant recursive == ("-r" in args[..i]) && force == ("-f" in args[..i])
      invariant Operands(args[..i], DELE_OPTIONS) == if target.Some? then [target.value] else []
    {
      OperandsNext(args, i, DELE_OPTIONS);
      if args[i] == "-r" {
        recursive := true;
      } else if args[i] == "-f" {
        force := true;
      } else if target.None? {
        target := Some(args[i]);
      } else {
        TargetExactly(args);
        return None;
      }
      i := i + 1;
    }
    assert args[..i] == args;
    r := if target.Some? then Some(DeleArgs(recursive, force, target.value)) else None;
    TargetExactly(args);
  }

  lemma TargetExactly(args: seq<string>)
    ensures |Operands(args, DELE_OPTIONS)| == 1 <==> exists k :: IsTarget(args, k)
    ensures forall k :: IsTarget(args, k) ==> Operands(args, DELE_OPTIONS) == [args[k]]
  {
    CountOperands(args, DELE_OPTIONS);
    if |Operands(args, DELE_OPTIONS)| == 1 {
      var k :| OnlyOperand(args, DELE_OPTIONS, k);
      assert IsTarget(args, k);
    }
    forall k | IsTarget(args, k)
      ensures Operands(args, DELE_OPTIONS) == [args[k]]
    {
      OneOperand(args, DELE_OPTIONS, k);
    }
  }

  const DELETED := Reply(FILE_ACTION_OK, "Delete successful.")

  /** What lies at the end of the path: the directory a link leads to, or the entry itself. */
  function Scope(t: Tree, path: Path): Path {
    var found := Follow(t, path, MAX_LINKS);
    if found.Some? && t[found.value].Directory? then found.value else path
  }

  /** Whether the path leads to a directory, links followed. */
  predicate LeadsToDirectory(t: Tree, denied: Denied, path: Path) {
    var found := Follow(t, path, MAX_LINKS);
    path !in denied.stat && found.Some? && t[found.value].Directory?
  }

  /** Whether no link on the way lies in the directory the path leads to. */
  predicate LinksOutside(t: Tree, path: Path) {
    forall link :: link in Chain(t, path, MAX_LINKS) ==> !Under(link, Scope(t, path))
  }

  /** Whether the command deletes recursively, named by a link. */
  predicate DeletesLinked(t: Tree, denied: Denied, recursive: bool, target: string, path: Path) {
    IsPathSafe(target) && recursive && LeadsToDirectory(t, denied, path) && path != Scope(t, path)
  }

  /** Whether the command will remove what it names. A link to a directory is never removed. */
  ghost predicate Removes(t: Tree, denied: Denied, recursive: bool, target: string, path: Path) {
    && IsPathSafe(target) && path !in denied.stat && Follow(t, path, MAX_LINKS).Some?
    && if LeadsToDirectory(t, denied, path) then recursive && Deletable(t, denied, path) else path !in denied.unlink
  }

  /** What the command promises about its reply and the tree before and after. */
  ghost predicate Answered(t: Tree, t': Tree, denied: Denied, recursive: bool, force: bool, target: string,
                           path: Path, reply: Reply) {
    && (reply == DELETED <==> Removes(t, denied, recursive, target, path))
    && (reply == DELETED ==> Below(t', path) == {})
    && (reply != DELETED && path in t && (Under(path, Scope(t, path)) ==> path == Scope(t, path)) ==> path in t')
    && (reply != DELETED && Scope(t, path) in t ==> Scope(t, path) in t')
    && (DeletesLinked(t, denied, recursive, target, path) && LinksOutside(t, path) ==>
         EmptiedExactly(t, t', denied, Scope(t, path)))
    && (reply.code == FILE_ACTION_OK <==>
         reply == DELETED ||
         (force && IsPathSafe(target) && !(LeadsToDirectory(t, denied, path) && !recursive)))
    && (reply.code != FILE_ACTION_OK ==> reply.code == FILE_ACTION_NOT_TAKEN_PERM)
    && (!IsPathSafe(target) || (LeadsToDirectory(t, denied, path) && !recursive) ==> t' == t)
  }

  /** The command. `path` is where the target lies. The success reply is sent exactly when nothing stood
      in the way, and then exactly the target is gone; otherwise the target is still there, unless it is
      a link that lies in the very directory it leads to. Nothing is removed but the target, or what lies
      in the directory it leads to; a link to a directory empties it exactly when nothing stands in the
      way there. `-f` turns a missing target or a failed removal into a positive
      reply, but not a directory named without `-r`, to which nothing happens. Without `-f` a positive reply
      means that the target was there and is gone. */
  method HandleDeleCommand(fs: FileSystem, args: seq<string>, path: Path) returns (reply: Reply)
    requires WellFormed(fs.tree)
    modifies fs`tree
    ensures WellFormed(fs.tree) && OnlyRemovedUnder(old(fs.tree), fs.tree, Scope(old(fs.tree), path))
    ensures (forall k :: !IsTarget(args, k)) ==> reply.code == SYNTAX_ERROR_PARAMS && fs.tree == old(fs.tree)
    ensures forall k :: IsTarget(args, k) ==>
      Answered(old(fs.tree), fs.tree, fs.denied, "-r" in args, "-f" in args, args[k], path, reply)
    ensures "-r" !in args && LeadsToDirectory(old(fs.tree), fs.denied, path) ==>
      fs.tree == old(fs.tree) && reply.code != FILE_ACTION_OK
    ensures "-f" !in args && reply.code == FILE_ACTION_OK ==>
      path in old(fs.tree) && Below(fs.tree, path) == {}
  {
    hide Deletable, WellFormed, EmptiedExactly, LinksOutside, OnlyOperand, Answered, LeadsToDirectory, Scope, Below;
    hide OnlyRemovedUnder;
    ghost var t := fs.tree;
    var parsed := ParseDeleParams(args);
    if parsed.None? {
      RemovedNothing(t, Scope(t, path));
      return Reply(SYNTAX_ERROR_PARAMS, "Invalid arguments for DELE.");
    }
    var a := parsed.value;
    reply := DeleteTarget(fs, a, path);
    AnswerMeans(t, fs.tree, fs.denied, a.recursive, a.force, a.target, path, reply);
  }

  lemma RemovedNothing(t: Tree, dir: Path)
    ensures OnlyRemovedUnder(t, t, dir)
  {
  }

  lemma AnswerMeans(t: Tree, t': Tree, denied: Denied, recursive: bool, force: bool, target: string, path: Path,
                    reply: Reply)
    requires Answered(t, t', denied, recursive, force, target, path, reply)
    ensures !recursive && LeadsToDirectory(t, denied, path) ==> t' == t && reply.code != FILE_ACTION_OK
    ensures !force && reply.code == FILE_ACTION_OK ==> path in t && Below(t', path) == {}
  {
    hide Deletable, EmptiedExactly, LinksOutside, Below, Under;
  }

  /** What happens once the arguments have been read. */
  method DeleteTarget(fs: FileSystem, a: DeleArgs, path: Path) returns (reply: Reply)
    requires WellFormed(fs.tree)
    modifies fs`tree
    ensures WellFormed(fs.tree) && OnlyRemovedUnder(old(fs.tree), fs.tree, Scope(old(fs.tree), path))
    ensures Answered(old(fs.tree), fs.tree, fs.denied, a.recursive, a.force, a.target, path, reply)
  {
    hide Deletable, WellFormed, EmptiedExactly, LinksOutside, OnlyRemovedUnder, Below, Under, Scope;
    ghost var t := fs.tree;
    RemovedNothing(t, Scope(t, path));
    if !IsPathSafe(a.target) {
      return Reply(FILE_ACTION_NOT_TAKEN_PERM, "Invalid path");
    }
    var stat := fs.Stat(path);
    if stat.None? {
      return if a.force then Reply(FILE_ACTION_OK, "Force delete: file does not exist.")
             else Reply(FILE_ACTION_NOT_TAKEN_PERM, "File not found.");
    }
    if fs.tree[stat.value].Directory? && !a.recursive {
      return Reply(FILE_ACTION_NOT_TAKEN_PERM, "Target is a directory. Use -r to delete recursively.");
    }
    var deleted := RemoveNamed(fs, path, stat.value);
    if deleted != 0 {
      return if a.force then Reply(FILE_ACTION_OK, "Force delete: error ignored.")
             else Reply(FILE_ACTION_NOT_TAKEN_PERM, "Failed to delete.");
    }
    reply := DELETED;
  }

  /** The removal itself: of a directory and all below it, or of anything else. */
  method RemoveNamed(fs: FileSystem, path: Path, target: Path) returns (r: int)
    requires WellFormed(fs.tree) && path !in fs.denied.stat && Follow(fs.tree, path, MAX_LINKS) == Some(target)
    modifies fs`tree
    ensures WellFormed(fs.tree) && OnlyRemovedUnder(old(fs.tree), fs.tree, Scope(old(fs.tree), path))
    ensures r == 0 <==>
      if old(fs.tree)[target].Directory? then Deletable(old(fs.tree), fs.denied, path) else path !in fs.denied.unlink
    ensures r == 0 ==> Below(fs.tree, path) == {}
    ensures r != 0 && path in old(fs.tree) ==>
      path in fs.tree || (Under(path, Scope(old(fs.tree), path)) && path != Scope(old(fs.tree), path))
    ensures r != 0 && Scope(old(fs.tree), path) in old(fs.tree) ==> Scope(old(fs.tree), path) in fs.tree
    ensures old(fs.tree)[target].Directory? && path != Scope(old(fs.tree), path) && LinksOutside(old(fs.tree), path) ==>
      EmptiedExactly(old(fs.tree), fs.tree, fs.denied, Scope(old(fs.tree), path))
  {
    hide Deletable, WellFormed, EmptiedExactly, LinksOutside;
    if fs.tree[target].Directory? {
      r := DeletePath(fs, path, target);
    } else {
      NoLinkNoDirectory(fs.tree, path);
      LeafRemoved(fs.tree, path);
      LeafAlone(fs.tree, path);
      r := fs.Unlink(path);
    }
  }

  /** The recursive call on the path as given, which leads to this directory. */
  method DeletePath(fs: FileSystem, path: Path, target: Path) returns (r: int)
    requires WellFormed(fs.tree) && Follow(fs.tree, path, MAX_LINKS) == Some(target) && fs.tree[target].Directory?
    modifies fs`tree
    ensures WellFormed(fs.tree) && OnlyRemovedUnder(old(fs.tree), fs.tree, target)
    ensures r == 0 <==> Deletable(old(fs.tree), fs.denied, path)
    ensures r == 0 ==> Below(fs.tree, path) == {}
    ensures r != 0 ==> target in fs.tree
    ensures path != target && LinksOutside(old(fs.tree), path) ==>
      EmptiedExactly(old(fs.tree), fs.tree, fs.denied, target)
  {
    hide WellFormed, EmptiedExactly;
    var links := Chain(fs.tree, path, MAX_LINKS);
    if fs.tree[path].Directory? {
      r := DeleteDirectoryRecursively(fs, path);
    } else if forall link :: link in links ==> !Under(link, target) {
      r := DeleteLinked(fs, target);
    } else {
      r := DeleteThroughLinks(fs, links, target, true);
    }
  }

  lemma NoLinkNoDirectory(t: Tree, path: Path)
    requires Follow(t, path, MAX_LINKS).Some? && !t[Follow(t, path, MAX_LINKS).value].Directory?
    ensures path in t && !t[path].Directory?
  {
  }

  lemma LeafAlone(t: Tree, c: Path)
    requires WellFormed(t) && c in t && !t[c].Directory?
    ensures Below(t - {c}, c) == {}
  {
    forall p | p in t && Under(p, c)
      ensures p == c
    {
      AncestorsStay(t, c, p);
    }
  }
}
