/** The older copy of the parent test (src/lt/.../psi/MyPsiUtil.java). */
module LegacyPsiUtil {
  import opened Wrappers
  import opened Psi
  import MyPsiUtil

  /**
   * `getParentOfType`: `None` for a missing element or a missing parent; the parent itself when
   * it is an instance of `c`; `None` otherwise. Only the immediate parent is inspected.
   */
  function GetParentOfType(t: Tree, element: Option<Id>, c: PsiClass): (r: Option<Id>)
    ensures element.None? ==> r.None?
    ensures element.Some? && ParentOf(t, element.value).None? ==> r.None?
    ensures element.Some? && ParentOf(t, element.value).Some? ==>
      (r.Some? <==> IsInstance(t[ParentOf(t, element.value).value].kind, c))
    ensures r.Some? ==> r == ParentOf(t, element.value)
  {
    if element.Some? then
      var parent := ParentOf(t, element.value);
      if parent.Some? && IsInstance(t[parent.value].kind, c) then parent else None
    else None
  }

  /** The two copies of the parent test agree on every input. */
  lemma SameAsMyPsiUtil(t: Tree, element: Option<Id>, c: PsiClass)
    ensures GetParentOfType(t, element, c) == MyPsiUtil.GetParentOfType(t, element, c)
  {
  }
}
