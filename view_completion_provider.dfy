/**
 * Completion of view names inside `$this->load->view(...)`
 * (src/lt/.../view/ViewCompletionProvider.java).
 */
module ViewCompletionProvider {
  import opened Wrappers
  import opened Strings
  import opened Vfs
  import opened Psi
  import LegacyPsiUtil
  import opened PhpExtensionUtil
  import opened CiProject
  import opened CiViewUtil
  import opened VfsUtilCompat
  import opened FileCompletion

  /** `isViewNameElement`: the caret's parent literal is argument 0 of `load->view`. */
  predicate IsViewNameElement(t: Tree, position: Option<Id>) {
    match LegacyPsiUtil.GetParentOfType(t, position, StringLiteralExpressionClass)
    case None => false
    case Some(literal) => IsArgumentOfLoadView(t, Some(literal), 0)
  }

  /** `addCompletions`: every file below every views directory, as its relative path. */
  function Completions(enabled: bool, p: Project, t: Tree, position: Option<Id>): seq<FileLookup> {
    if position.Some? && enabled && IsViewNameElement(t, position) then
      Suggestions(ViewConvention, p.vfs, GetViewDirectories(p))
    else []
  }

  method AddCompletions(enabled: bool, p: Project, t: Tree, position: Option<Id>) returns (r: seq<FileLookup>)
    ensures r == Completions(enabled, p, t, position)
  {
    r := [];
    if position.Some? && enabled && IsViewNameElement(t, position) {
      r := CollectSuggestions(ViewConvention, p.vfs, GetViewDirectories(p));
    }
  }

  /** A '.' in the last component of a path is a '.' in the path. */
  lemma DotInSuffix(s: string, suffix: string)
    requires EndsWith(s, suffix) && '.' in suffix
    ensures '.' in s
  {
    var i :| 0 <= i < |suffix| && suffix[i] == '.';
    assert s[|s| - |suffix| + i] == '.';
  }

  /**
   * A view file below a views directory is offered as its relative path; when its name has an
   * extension, passing that path to `load->view` finds the file again. A file without an
   * extension ("README") is offered too, but the lookup then adds ".php".
   */
  lemma ViewSuggestionResolves(p: Project, d: VFile, f: VFile)
    requires d in GetViewDirectories(p)
    requires f in Descendants(p.vfs, d) && Exists(p.vfs, f) && PlainPath(f)
    requires !IsDirectory(p.vfs, f) && f in p.psi
    ensures |d.path| < |f.path|
    ensures Suggestion(ViewConvention, p.vfs, d, f).Some?
    ensures var name := Suggestion(ViewConvention, p.vfs, d, f).value.lookup;
      && name == Join(f.path[|d.path|..], '/')
      && ('.' in Name(f) ==> f in ViewFiles(p, name))
  {
    RelativePathWalksBack(p.vfs, d, f);
    RelativePathEndsWithName(p.vfs, d, f);
    var rel := Join(f.path[|d.path|..], '/');
    assert Suggestion(ViewConvention, p.vfs, d, f) == Some(FileLookup(rel, Parent(d)));
    if '.' in Name(f) {
      DotInSuffix(rel, Name(f));
      assert AddIfMissing(rel) == rel;
      assert FileUnder(p, d, rel) == Some(f);
      FilesUnderMember(p, GetViewDirectories(p), rel, f);
      assert ViewFiles(p, rel) == FilesUnder(p, GetViewDirectories(p), rel);
    }
  }

  /**
   * Something is offered exactly at a view-name position of an enabled project, and then
   * exactly the suggestions of the files below the views directories.
   */
  lemma CompletionsMember(enabled: bool, p: Project, t: Tree, position: Option<Id>, s: FileLookup)
    ensures s in Completions(enabled, p, t, position) <==>
      && (position.Some? && enabled && IsViewNameElement(t, position))
      && exists d, f :: d in GetViewDirectories(p) && f in Descendants(p.vfs, d) && Suggestion(ViewConvention, p.vfs, d, f) == Some(s)
  {
    if (position.Some? && enabled && IsViewNameElement(t, position)) {
      SuggestionsMember(ViewConvention, p.vfs, GetViewDirectories(p), s);
    }
  }
}
