/**
 * Adding and removing the default ".php" extension of a view or model path
 * (src/lt/.../view/PhpExtensionUtil.java).
 *
 * The extension of a path is what `PathUtil.getFileExtension` returns: everything after the
 * last '.' anywhere in the path, or nothing when there is no '.'. The name without extension
 * is, likewise, everything before the last '.'.
 */
module PhpExtensionUtil {
  import opened Wrappers
  import opened Strings

  const Php: string := "php"
  const DotPhp: string := ".php"

  /** `PathUtil.getFileExtension`: the text after the last '.', or `None` without a '.'. */
  function FileExtension(path: string): (r: Option<string>)
    ensures r.None? <==> '.' !in path
    ensures r.Some? ==> EndsWith(path, "." + r.value) && '.' !in r.value
  {
    match LastIndexOf(path, '.')
    case None => None
    case Some(i) =>
      assert path[|path| - |"." + path[i + 1..]|..] == "." + path[i + 1..];
      Some(path[i + 1..])
  }

  /** `PhpNameUtil.getNameWithoutExtension`: the text before the last '.', if any. */
  function NameWithoutExtension(path: string): (r: string)
    ensures FileExtension(path).Some? ==> r + "." + FileExtension(path).value == path
    ensures FileExtension(path).None? ==> r == path
  {
    match LastIndexOf(path, '.')
    case None => path
    case Some(i) =>
      assert path == path[..i] + "." + path[i + 1..];
      path[..i]
  }

  /** `addIfMissing`: a path without an extension gets ".php"; any other path is unchanged. */
  function AddIfMissing(path: string): (r: string)
    ensures FileExtension(path).None? ==> r == path + DotPhp
    ensures FileExtension(path).Some? ==> r == path
    ensures FileExtension(r).Some?
  {
    if FileExtension(path).None? then path + DotPhp else path
  }

  /** `removeIfPresent`: a path whose extension is exactly "php" loses ".php"; others are unchanged. */
  function RemoveIfPresent(path: string): (r: string)
    ensures FileExtension(path) == Some(Php) ==> r + DotPhp == path
    ensures FileExtension(path) != Some(Php) ==> r == path
    ensures |r| <= |path|
  {
    if FileExtension(path) == Some(Php) then NameWithoutExtension(path) else path
  }

  /** A second `addIfMissing` changes nothing: the first result always has an extension. */
  lemma AddIfMissingIdempotent(path: string)
    ensures AddIfMissing(AddIfMissing(path)) == AddIfMissing(path)
  {
  }

  /** Removing the extension from any path with ".php" appended gives the path back. */
  lemma RemoveAppendedPhp(path: string)
    ensures RemoveIfPresent(path + DotPhp) == path
  {
    LastIndexOfAppend(path, DotPhp, '.');
    assert LastIndexOf(DotPhp, '.') == Some(0);
    assert (path + DotPhp)[|path| + 1..] == Php;
    assert (path + DotPhp)[..|path|] == path;
  }

  /** A path ending in ".php" has the extension "php". */
  lemma PhpSuffixIsExtension(path: string)
    requires EndsWith(path, DotPhp)
    ensures FileExtension(path) == Some(Php)
  {
    var stem := path[..|path| - |DotPhp|];
    assert path == stem + DotPhp;
    RemoveAppendedPhp(stem);
  }

  /** For a path without a '.', removal undoes addition. */
  lemma RemoveAfterAdd(path: string)
    requires '.' !in path
    ensures RemoveIfPresent(AddIfMissing(path)) == path
  {
    RemoveAppendedPhp(path);
  }

  /**
   * Adding back after removing restores a ".php" path exactly when the shortened path has no
   * '.' left; with a '.' elsewhere in the path the shortened path counts as having an extension.
   */
  lemma AddAfterRemove(path: string)
    requires FileExtension(path) == Some(Php)
    ensures AddIfMissing(RemoveIfPresent(path)) == path <==> '.' !in RemoveIfPresent(path)
  {
    var stripped := RemoveIfPresent(path);
    assert stripped + DotPhp == path;
    if '.' in stripped {
      assert |AddIfMissing(stripped)| < |path|;
    }
  }

  lemma DottedNameLosesPhp()
    ensures RemoveIfPresent("v1.0/welcome.php") == "v1.0/welcome"
  {
    assert "v1.0/welcome.php" == "v1.0/welcome" + DotPhp;
    RemoveAppendedPhp("v1.0/welcome");
  }

  lemma DottedNameHasExtension()
    ensures FileExtension("v1.0/welcome").Some?
  {
    assert "v1.0/welcome"[2] == '.';
  }

  /** A concrete path with a dotted directory: "v1.0/welcome.php" loses ".php" and does not get it back. */
  lemma AddAfterRemoveDottedDirectory()
    ensures RemoveIfPresent("v1.0/welcome.php") == "v1.0/welcome"
    ensures AddIfMissing("v1.0/welcome") == "v1.0/welcome"
  {
    DottedNameLosesPhp();
    DottedNameHasExtension();
  }

  /** The check is case-sensitive: ".PHP" is not the PHP extension. */
  lemma RemoveIfPresentCaseSensitive()
    ensures RemoveIfPresent("welcome.PHP") == "welcome.PHP"
  {
    assert "welcome.PHP"[7] == '.';
    assert LastIndexOf("welcome.PHP", '.') == Some(7);
  }
}
