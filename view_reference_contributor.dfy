/**
 * References from a view name to the view files it names
 * (src/main/java/.../view/ViewReferenceContributor.java).
 */
module ViewReferenceContributor {
  import opened Wrappers
  import opened Strings
  import opened Vfs
  import opened Psi
  import opened PhpExtensionUtil
  import opened CiProject
  import opened CiViewUtil
  import opened MyPsiReference

  /** The guard: the feature is on and the element is a literal at argument 0 of `load->view`. */
  predicate IsViewNameLiteral(enabled: bool, t: Tree, element: Id) {
    enabled && HasKind(t, element, StringLiteral) && IsArgumentOfLoadView(t, Some(element), 0)
  }

  /** `getReferencesByElement`: one reference per view file of the unquoted literal, resolving to that file. */
  function ViewReferences(enabled: bool, p: Project, t: Tree, element: Id): (refs: seq<Reference>)
    ensures !IsViewNameLiteral(enabled, t, element) ==> refs == []
    ensures IsViewNameLiteral(enabled, t, element) ==>
      var files := ViewFiles(p, Contents(t, element));
      |refs| == |files| && forall k :: 0 <= k < |refs| ==> refs[k] == Reference(Some(WholeFile(files[k])), element)
  {
    if IsViewNameLiteral(enabled, t, element) then ReferencesTo(ViewFiles(p, Contents(t, element)), element) else []
  }

  /** One whole-file reference from `element` per file, in order. */
  function ReferencesTo(files: seq<VFile>, element: Id): (refs: seq<Reference>)
    ensures |refs| == |files| && forall k :: 0 <= k < |refs| ==> refs[k] == Reference(Some(WholeFile(files[k])), element)
  {
    seq(|files|, k requires 0 <= k < |files| => Reference(Some(WholeFile(files[k])), element))
  }

  /**
   * Each reference resolves to a file, not a directory, reached by the literal's path (with ".php"
   * added when it has no extension) from some views directory.
   */
  lemma ViewReferenceTargets(enabled: bool, p: Project, t: Tree, element: Id, k: nat)
    requires k < |ViewReferences(enabled, p, t, element)|
    ensures var r := ViewReferences(enabled, p, t, element)[k];
      && r.literal == element && r.target.Some? && r.target.value.WholeFile?
      && !IsDirectory(p.vfs, r.target.value.file)
      && exists d :: d in GetViewDirectories(p)
           && FindByRelativePath(p.vfs, d, AddIfMissing(Contents(t, element))) == Some(r.target.value.file)
  {
    var files := ViewFiles(p, Contents(t, element));
    var f := files[k];
    assert f in files;
    FilesUnderMember(p, GetViewDirectories(p), AddIfMissing(Contents(t, element)), f);
  }
}
