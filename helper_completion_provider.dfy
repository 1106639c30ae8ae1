/**
 * Completion of helper names inside `$this->load->helper(...)`
 * (src/lt/.../helper/HelperCompletionProvider.java).
 */
module HelperCompletionProvider {
  import opened Wrappers
  import opened Strings
  import opened Vfs
  import opened Psi
  import LegacyPsiUtil
  import opened CiProject
  import opened CiHelperUtil
  import opened VfsUtilCompat
  import opened FileCompletion

  /** `shouldShowSuggestions`: an enabled project and a caret inside a helper-name literal. */
  predicate ShouldShowSuggestions(enabled: bool, t: Tree, position: Option<Id>) {
    && enabled
    && match LegacyPsiUtil.GetParentOfType(t, position, StringLiteralExpressionClass)
       case None => false
       case Some(literal) => IsHelperNameElement(t, literal)
  }

  /** `addCompletions`: every helper file below every helpers directory, as a formatted name. */
  function Completions(enabled: bool, p: Project, t: Tree, position: Option<Id>): seq<FileLookup> {
    if ShouldShowSuggestions(enabled, t, position) then Suggestions(HelperConvention, p.vfs, GetHelperDirectories(p))
    else []
  }

  method AddCompletions(enabled: bool, p: Project, t: Tree, position: Option<Id>) returns (r: seq<FileLookup>)
    ensures r == Completions(enabled, p, t, position)
  {
    r := [];
    if ShouldShowSuggestions(enabled, t, position) {
      r := CollectSuggestions(HelperConvention, p.vfs, GetHelperDirectories(p));
    }
  }

  /**
   * A helper file below a helpers directory is offered as its relative path without
   * "_helper.php"; when that name is not itself re-shortened by `formatHelperPath`, loading it
   * finds the file again ("a_helper_helper.php" is the exception: see
   * `CiHelperUtil.FormatHelperPathNotIdempotent`).
   */
  lemma HelperSuggestionResolves(p: Project, d: VFile, f: VFile)
    requires d in GetHelperDirectories(p)
    requires f in Descendants(p.vfs, d) && Exists(p.vfs, f) && PlainPath(f)
    requires IsHelperFile(p.vfs, f) && f in p.psi
    ensures Suggestion(HelperConvention, p.vfs, d, f).Some?
    ensures var name := Suggestion(HelperConvention, p.vfs, d, f).value.lookup;
      && name + FileSuffix == RelativePath(p.vfs, d, f, '/').value
      && (FormatHelperPath(name) == name ==> f in HelperFiles(p, name))
  {
    RelativePathWalksBack(p.vfs, d, f);
    RelativePathEndsWithName(p.vfs, d, f);
    var rel := Join(f.path[|d.path|..], '/');
    EndsWithTransitive(rel, Name(f), FileSuffix);
    var name := FormatHelperPath(rel);
    assert name + FileSuffix == rel;
    if FormatHelperPath(name) == name {
      assert FileUnder(p, d, rel) == Some(f);
      FilesUnderMember(p, GetHelperDirectories(p), rel, f);
    }
  }

  /** A file called just "_helper.php" directly in a helpers directory is offered as the empty name. */
  lemma BareSuffixFileOffersEmptyName(p: Project, d: VFile)
    requires IsDirectory(p.vfs, d) && PlainPath(d)
    requires IsHelperFile(p.vfs, Child(d, FileSuffix))
    ensures RelativePath(p.vfs, d, Child(d, FileSuffix), '/') == Some(FileSuffix)
    ensures Suggestion(HelperConvention, p.vfs, d, Child(d, FileSuffix)) == Some(FileLookup("", Parent(d)))
  {
    var path := d.path + [FileSuffix];
    assert forall k :: 0 <= k < |path| ==> path[k] != "" && '/' !in path[k] by {
      assert forall k :: 0 <= k < |d.path| ==> path[k] == d.path[k];
      assert path[|d.path|] == FileSuffix;
    }
    RelativePathBelow(p.vfs, d, [FileSuffix], '/');
    assert FormatHelperPath(FileSuffix) == "";
  }

  /**
   * Something is offered exactly at a helper-name position of an enabled project, and then
   * exactly the suggestions of the helper files below the helpers directories.
   */
  lemma CompletionsMember(enabled: bool, p: Project, t: Tree, position: Option<Id>, s: FileLookup)
    ensures s in Completions(enabled, p, t, position) <==>
      && ShouldShowSuggestions(enabled, t, position)
      && exists d, f :: d in GetHelperDirectories(p) && f in Descendants(p.vfs, d) && Suggestion(HelperConvention, p.vfs, d, f) == Some(s)
  {
    if ShouldShowSuggestions(enabled, t, position) {
      SuggestionsMember(HelperConvention, p.vfs, GetHelperDirectories(p), s);
    }
  }
}
