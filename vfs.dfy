/**
 * The project's virtual file system as a finite tree of named files and directories.
 *
 * A `VFile` handle names a node by its file system and the names on the way down from a
 * root (`path[0]` is the root's own name). Navigation (`Parent`, child lookup,
 * `findFileByRelativePath`), the recursive walk of `VfsUtil.visitChildrenRecursively` and the
 * name search of `FilenameIndex.getFilesByName` are host services; they are defined here over
 * the tree as assumptions about the host.
 */
module Vfs {
  import opened Wrappers
  import opened Strings
  import opened Seqs

  datatype Node = File(name: string, isPhp: bool) | Dir(name: string, children: seq<Node>)

  datatype Root = Root(fileSystem: nat, node: Node)

  datatype FileTree = FileTree(roots: seq<Root>)

  datatype VFile = VFile(fileSystem: nat, path: seq<string>)

  /** The first child called `name` (`VirtualFile.findChild`). */
  function FindChild(children: seq<Node>, name: string): (r: Option<Node>)
    ensures r.Some? ==> r.value in children && r.value.name == name
    ensures r.None? ==> forall c :: c in children ==> c.name != name
  {
    if children == [] then None
    else if children[0].name == name then Some(children[0])
    else FindChild(children[1..], name)
  }

  function Descend(n: Node, names: seq<string>): Option<Node>
    decreases |names|
  {
    if names == [] then Some(n)
    else match n
      case File(_, _) => None
      case Dir(_, children) =>
        match FindChild(children, names[0])
        case None => None
        case Some(c) => Descend(c, names[1..])
  }

  function FindRoot(roots: seq<Root>, fileSystem: nat, name: string): Option<Node> {
    if roots == [] then None
    else if roots[0].fileSystem == fileSystem && roots[0].node.name == name then Some(roots[0].node)
    else FindRoot(roots[1..], fileSystem, name)
  }

  /** The node a handle names, if it exists. */
  function Lookup(t: FileTree, f: VFile): Option<Node> {
    if f.path == [] then None
    else match FindRoot(t.roots, f.fileSystem, f.path[0])
      case None => None
      case Some(r) => Descend(r, f.path[1..])
  }

  predicate Exists(t: FileTree, f: VFile) {
    Lookup(t, f).Some?
  }

  /** `VirtualFile.isDirectory`. */
  predicate IsDirectory(t: FileTree, f: VFile) {
    Lookup(t, f).Some? && Lookup(t, f).value.Dir?
  }

  /** `file.getFileType() == PhpFileType.INSTANCE`. */
  predicate IsPhpFile(t: FileTree, f: VFile) {
    Lookup(t, f).Some? && Lookup(t, f).value.File? && Lookup(t, f).value.isPhp
  }

  /** `VirtualFile.getName`. */
  function Name(f: VFile): string {
    if f.path == [] then "" else f.path[|f.path| - 1]
  }

  /** `VirtualFile.getParent`: `None` for a root. */
  function Parent(f: VFile): (r: Option<VFile>)
    ensures r.Some? ==> r.value.fileSystem == f.fileSystem && r.value.path + [Name(f)] == f.path
    ensures r.None? <==> |f.path| <= 1
  {
    if |f.path| > 1 then Some(VFile(f.fileSystem, f.path[..|f.path| - 1])) else None
  }

  function Child(f: VFile, name: string): VFile {
    VFile(f.fileSystem, f.path + [name])
  }

  /**
   * `VirtualFile.findFileByRelativePath` after splitting: "." stays, ".." moves to the parent
   * (failing above a root), any other component must name an existing child.
   */
  function Walk(t: FileTree, current: VFile, names: seq<string>): Option<VFile>
    decreases |names|
  {
    if names == [] then Some(current)
    else if names[0] == "." then Walk(t, current, names[1..])
    else if names[0] == ".." then
      match Parent(current)
      case None => None
      case Some(p) => Walk(t, p, names[1..])
    else if Exists(t, Child(current, names[0])) then Walk(t, Child(current, names[0]), names[1..])
    else None
  }

  function FindByRelativePath(t: FileTree, dir: VFile, relativePath: string): Option<VFile> {
    Walk(t, dir, Segments(relativePath))
  }

  /** The handles of `n` and everything below it, parents before children, in child order. */
  function Subtree(fileSystem: nat, path: seq<string>, n: Node): seq<VFile>
    decreases n, 1
  {
    [VFile(fileSystem, path)] +
    match n
    case File(_, _) => []
    case Dir(_, children) => SubtreeList(fileSystem, path, children)
  }

  function SubtreeList(fileSystem: nat, parentPath: seq<string>, children: seq<Node>): seq<VFile>
    decreases children, 0
  {
    if children == [] then []
    else
      Subtree(fileSystem, parentPath + [children[0].name], children[0]) +
      SubtreeList(fileSystem, parentPath, children[1..])
  }

  /** `VfsUtil.visitChildrenRecursively(dir, ...)` with a visitor that never stops: dir first. */
  function Descendants(t: FileTree, dir: VFile): seq<VFile> {
    match Lookup(t, dir)
    case None => []
    case Some(n) => Subtree(dir.fileSystem, dir.path, n)
  }

  function RootsSubtrees(roots: seq<Root>): seq<VFile> {
    if roots == [] then []
    else Subtree(roots[0].fileSystem, [roots[0].node.name], roots[0].node) + RootsSubtrees(roots[1..])
  }

  /** Every file and directory of the project, in the host's enumeration order. */
  function AllEntries(t: FileTree): seq<VFile> {
    RootsSubtrees(t.roots)
  }

  /**
   * `FilenameIndex.getFilesByName(project, name, scope, true)` filtered with `isDirectory`:
   * the directories whose name is exactly `name`.
   */
  function DirectoriesNamed(t: FileTree, name: string): (r: seq<VFile>)
    ensures forall d :: d in r ==> Name(d) == name && IsDirectory(t, d)
  {
    Filter(AllEntries(t), (f: VFile) => Name(f) == name && IsDirectory(t, f))
  }

  lemma DirectoriesNamedExactly(t: FileTree, name: string, d: VFile)
    ensures d in DirectoriesNamed(t, name) <==> d in AllEntries(t) && Name(d) == name && IsDirectory(t, d)
  {
    FilterMember(AllEntries(t), (f: VFile) => Name(f) == name && IsDirectory(t, f), d);
  }

  /** Longest common prefix of two name paths. */
  function CommonPrefix(a: seq<string>, b: seq<string>): (r: seq<string>)
    ensures |r| <= |a| && |r| <= |b|
    ensures r == a[..|r|] && r == b[..|r|]
    ensures |r| < |a| && |r| < |b| ==> a[|r|] != b[|r|]
  {
    if a == [] || b == [] || a[0] != b[0] then []
    else [a[0]] + CommonPrefix(a[1..], b[1..])
  }

  /** `VfsUtilCore.getCommonAncestor`: the deepest handle both are at or below, if any. */
  function CommonAncestor(a: VFile, b: VFile): (r: Option<VFile>)
    ensures r.Some? ==> r.value.fileSystem == a.fileSystem == b.fileSystem
    ensures r.Some? ==> r.value.path == CommonPrefix(a.path, b.path) != []
  {
    if a.fileSystem != b.fileSystem then None
    else
      var p := CommonPrefix(a.path, b.path);
      if p == [] then None else Some(VFile(a.fileSystem, p))
  }

  /** `VfsUtilCore.getRelativePath(file, ancestor, sep)` for an ancestor at or above `file`. */
  function PathBelow(file: VFile, ancestor: VFile, sep: char): string
    requires |ancestor.path| <= |file.path|
  {
    Join(file.path[|ancestor.path|..], sep)
  }

  // ---------------------------------------------------------------------------------------
  // Walking back down to a visited file

  /** Everything a recursive visit of `n` yields lies at or below `path`, on the same file system. */
  lemma {:induction false} SubtreeBelow(fileSystem: nat, path: seq<string>, n: Node, f: VFile)
    requires f in Subtree(fileSystem, path, n)
    ensures f.fileSystem == fileSystem && |path| <= |f.path| && f.path[..|path|] == path
    decreases n, 1
  {
    if f != VFile(fileSystem, path) {
      SubtreeListBelow(fileSystem, path, n.children, f);
    }
  }

  lemma {:induction false} SubtreeListBelow(fileSystem: nat, parentPath: seq<string>, children: seq<Node>, f: VFile)
    requires f in SubtreeList(fileSystem, parentPath, children)
    ensures f.fileSystem == fileSystem && |parentPath| < |f.path| && f.path[..|parentPath|] == parentPath
    decreases children, 0
  {
    var childPath := parentPath + [children[0].name];
    if f in Subtree(fileSystem, childPath, children[0]) {
      SubtreeBelow(fileSystem, childPath, children[0], f);
      assert f.path[..|parentPath|] == f.path[..|childPath|][..|parentPath|];
    } else {
      SubtreeListBelow(fileSystem, parentPath, children[1..], f);
    }
  }

  /** A visit of `dir` stays inside `dir`. */
  lemma DescendantsBelow(t: FileTree, dir: VFile, f: VFile)
    requires f in Descendants(t, dir)
    ensures f.fileSystem == dir.fileSystem && |dir.path| <= |f.path| && f.path == dir.path + f.path[|dir.path|..]
  {
    SubtreeBelow(dir.fileSystem, dir.path, Lookup(t, dir).value, f);
    assert f.path == f.path[..|dir.path|] + f.path[|dir.path|..];
  }

  lemma {:induction false} DescendPrefix(n: Node, names: seq<string>, k: nat)
    requires Descend(n, names).Some? && k <= |names|
    ensures Descend(n, names[..k]).Some?
    decreases |names|
  {
    if k > 0 {
      var c := FindChild(n.children, names[0]).value;
      DescendPrefix(c, names[1..], k - 1);
      assert names[..k][1..] == names[1..][..k - 1];
    }
  }

  /** Every directory on the way down to an existing file exists. */
  lemma ExistsPrefix(t: FileTree, f: VFile, k: nat)
    requires Exists(t, f) && 1 <= k <= |f.path|
    ensures Exists(t, VFile(f.fileSystem, f.path[..k]))
  {
    var root := FindRoot(t.roots, f.fileSystem, f.path[0]).value;
    DescendPrefix(root, f.path[1..], k - 1);
    assert f.path[..k][1..] == f.path[1..][..k - 1];
  }

  /**
   * Walking plain names (no "." or "..") down from `dir` reaches the file they name, provided
   * that file exists.
   */
  lemma {:induction false} WalkDown(t: FileTree, dir: VFile, names: seq<string>)
    requires dir.path != []
    requires forall k :: 0 <= k < |names| ==> names[k] != "." && names[k] != ".."
    requires Exists(t, VFile(dir.fileSystem, dir.path + names))
    ensures Walk(t, dir, names) == Some(VFile(dir.fileSystem, dir.path + names))
    decreases |names|
  {
    if names != [] {
      var target := VFile(dir.fileSystem, dir.path + names);
      var child := Child(dir, names[0]);
      ExistsPrefix(t, target, |dir.path| + 1);
      assert target.path[..|dir.path| + 1] == child.path;
      assert child.path + names[1..] == dir.path + names;
      WalkDown(t, child, names[1..]);
    } else {
      assert dir.path + names == dir.path;
    }
  }
}
