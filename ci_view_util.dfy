/** Finding view files and recognising view names (src/lt/.../view/CiViewUtil.java). */
module CiViewUtil {
  import opened Wrappers
  import opened Vfs
  import opened Psi
  import opened MyPsiUtil
  import opened PhpExtensionUtil
  import opened CiProject

  const ViewsDirectoryName: string := "views"

  /** `getViewDirectories`: every directory of the project named exactly "views". */
  function GetViewDirectories(p: Project): (r: seq<VFile>)
    ensures forall d :: d in r ==> Name(d) == ViewsDirectoryName && IsDirectory(p.vfs, d)
  {
    DirectoriesNamed(p.vfs, ViewsDirectoryName)
  }

  /** Exactly the "views" directories are kept: no other name, no plain file of that name. */
  lemma ViewDirectoriesExactly(p: Project, d: VFile)
    ensures d in GetViewDirectories(p) <==> d in AllEntries(p.vfs) && Name(d) == ViewsDirectoryName && IsDirectory(p.vfs, d)
  {
    DirectoriesNamedExactly(p.vfs, ViewsDirectoryName, d);
  }

  /** What `findViewFiles` returns: the path, with ".php" added when it has no extension, under each views directory. */
  function ViewFiles(p: Project, relativePath: string): seq<VFile> {
    FilesUnder(p, GetViewDirectories(p), AddIfMissing(relativePath))
  }

  /** `findViewFiles`. */
  method FindViewFiles(p: Project, relativePath: string) returns (r: seq<VFile>)
    ensures r == ViewFiles(p, relativePath)
  {
    var path := AddIfMissing(relativePath);
    r := FindFilesUnder(p, GetViewDirectories(p), path);
  }

  /** "welcome" and "welcome.php" look up the same files. */
  lemma ViewFilesWithOrWithoutExtension(p: Project, path: string)
    requires '.' !in path
    ensures ViewFiles(p, path) == ViewFiles(p, path + DotPhp)
  {
    assert (path + DotPhp)[|path|] == '.';
  }

  /** A path that carries any extension is looked up unchanged. */
  lemma ViewFilesKeepExtension(p: Project, path: string)
    requires FileExtension(path).Some?
    ensures ViewFiles(p, path) == FilesUnder(p, GetViewDirectories(p), path)
  {
  }

  /** At most one result per views directory; never a directory; nothing without a views directory. */
  lemma ViewFilesBounds(p: Project, path: string)
    ensures |ViewFiles(p, path)| <= |GetViewDirectories(p)|
    ensures forall f :: f in ViewFiles(p, path) ==> !IsDirectory(p.vfs, f)
    ensures GetViewDirectories(p) == [] ==> ViewFiles(p, path) == []
  {
    FilesUnderAtMostOnePerDirectory(p, GetViewDirectories(p), AddIfMissing(path));
  }

  /** `isArgumentOfLoadView`: argument `argIndex` of `$this->load->view(...)`. */
  predicate IsArgumentOfLoadView(t: Tree, element: Option<Id>, argIndex: nat) {
    IsArgumentOfMethod(t, element, "load", "view", argIndex)
  }
}
