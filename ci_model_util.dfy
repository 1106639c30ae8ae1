/** Finding model files and recognising model names (src/lt/.../model/CiModelUtil.java). */
module CiModelUtil {
  import opened Wrappers
  import opened Vfs
  import opened Psi
  import opened MyPsiUtil
  import opened PhpExtensionUtil
  import opened CiProject

  const ModelsDirectoryName: string := "models"

  /** `getModelDirectories`: every directory of the project named exactly "models". */
  function GetModelDirectories(p: Project): (r: seq<VFile>)
    ensures forall d :: d in r ==> Name(d) == ModelsDirectoryName && IsDirectory(p.vfs, d)
  {
    DirectoriesNamed(p.vfs, ModelsDirectoryName)
  }

  /** Exactly the "models" directories are kept: no other name, no plain file of that name. */
  lemma ModelDirectoriesExactly(p: Project, d: VFile)
    ensures d in GetModelDirectories(p) <==> d in AllEntries(p.vfs) && Name(d) == ModelsDirectoryName && IsDirectory(p.vfs, d)
  {
    DirectoriesNamedExactly(p.vfs, ModelsDirectoryName, d);
  }

  /** What `findModelFiles` returns: the path, with ".php" added when it has no extension, under each models directory. */
  function ModelFiles(p: Project, relativePath: string): seq<VFile> {
    FilesUnder(p, GetModelDirectories(p), AddIfMissing(relativePath))
  }

  /** `findModelFiles`. */
  method FindModelFiles(p: Project, relativePath: string) returns (r: seq<VFile>)
    ensures r == ModelFiles(p, relativePath)
  {
    var path := AddIfMissing(relativePath);
    r := FindFilesUnder(p, GetModelDirectories(p), path);
  }

  /** "user" and "user.php" look up the same files. */
  lemma ModelFilesWithOrWithoutExtension(p: Project, path: string)
    requires '.' !in path
    ensures ModelFiles(p, path) == ModelFiles(p, path + DotPhp)
  {
    assert (path + DotPhp)[|path|] == '.';
  }

  /** A path that carries any extension is looked up unchanged. */
  lemma ModelFilesKeepExtension(p: Project, path: string)
    requires FileExtension(path).Some?
    ensures ModelFiles(p, path) == FilesUnder(p, GetModelDirectories(p), path)
  {
  }

  /** At most one result per models directory; never a directory; nothing without a models directory. */
  lemma ModelFilesBounds(p: Project, path: string)
    ensures |ModelFiles(p, path)| <= |GetModelDirectories(p)|
    ensures forall f :: f in ModelFiles(p, path) ==> !IsDirectory(p.vfs, f)
    ensures GetModelDirectories(p) == [] ==> ModelFiles(p, path) == []
  {
    FilesUnderAtMostOnePerDirectory(p, GetModelDirectories(p), AddIfMissing(path));
  }

  /** `isArgumentOfLoadModel`: argument `argIndex` of `$this->load->model(...)`. */
  predicate IsArgumentOfLoadModel(t: Tree, element: Option<Id>, argIndex: nat) {
    IsArgumentOfMethod(t, element, "load", "model", argIndex)
  }
}
