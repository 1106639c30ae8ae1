/**
 * The "Returned view data not used" inspection
 * (src/main/java/.../view/CodeIgniterReturnedViewNotUsedInspection.java).
 *
 * `$this->load->view('v', $data, TRUE);` asks the framework to return the rendered view instead
 * of printing it; written as a bare statement, the returned text is thrown away.
 */
module ReturnedViewNotUsedInspection {
  import opened Wrappers
  import opened Strings
  import opened Psi
  import opened MyPsiUtil
  import opened CiViewUtil

  const DisplayName: string := "Returned view data not used"
  const Message: string := "Returned view data not used"

  /** `PhpLangUtil.isTrue`: the constant's name is "true" in any (ASCII) case. */
  predicate IsTrue(t: Tree, reference: Id) {
    ToLower(ElementName(t, reference)) == "true"
  }

  /** `isBareStatement`: the nearest enclosing method reference is a statement's direct child. */
  predicate IsBareStatement(t: Tree, reference: Id) {
    match NearestAncestor(t, reference, MethodReferenceClass)
    case None => false
    case Some(call) =>
      match ParentOf(t, call)
      case None => false
      case Some(parent) => HasKind(t, parent, Statement)
  }

  /**
   * `visitPhpConstantReference`: a `true` constant of an enabled project passed as the third
   * argument of `$this->load->view(...)` whose call is a statement on its own is reported.
   */
  function CheckConstant(enabled: bool, t: Tree, reference: Id): (r: Option<string>)
    ensures r.Some? ==> r.value == Message
    ensures r.Some? <==>
      && enabled && HasKind(t, reference, ConstantReference) && IsTrue(t, reference)
      && IsArgumentOfLoadView(t, Some(reference), 2) && IsBareStatement(t, reference)
  {
    if enabled && HasKind(t, reference, ConstantReference) && IsTrue(t, reference)
       && IsArgumentOfLoadView(t, Some(reference), 2) && IsBareStatement(t, reference)
    then Some(Message)
    else None
  }

  /**
   * The method reference found by the upward search is the `load->view` call itself: for a
   * third argument of that call, in a tree whose parents precede their children, the nearest
   * method reference is its grandparent.
   */
  lemma NearestMethodIsTheViewCall(t: Tree, reference: Id)
    requires ParentsPrecede(t) && IsArgumentOfLoadView(t, Some(reference), 2)
    ensures var list := ParentOf(t, reference).value;
      var call := ParentOf(t, list).value;
      && HasKind(t, list, ParameterList)
      && NearestAncestor(t, reference, MethodReferenceClass) == Some(call)
      && ElementName(t, call) == "view"
  {
    var list := ParentOf(t, reference).value;
    var call := ParentOf(t, list).value;
    assert t[reference].parent == Some(list);
    assert list < reference;
    assert NearestAncestor(t, list, MethodReferenceClass) == Some(call);
  }

  /** A reported constant sits in a `load->view` call whose parent is a statement. */
  lemma ReportedCallIsStatement(enabled: bool, t: Tree, reference: Id)
    requires ParentsPrecede(t) && CheckConstant(enabled, t, reference).Some?
    ensures var call := ParentOf(t, ParentOf(t, reference).value).value;
      && ElementName(t, call) == "view"
      && ParentOf(t, call).Some? && HasKind(t, ParentOf(t, call).value, Statement)
  {
    NearestMethodIsTheViewCall(t, reference);
  }

  /** `FALSE`, or a constant other than `true`, is never reported. */
  lemma OnlyTrueIsReported(enabled: bool, t: Tree, reference: Id)
    requires !IsTrue(t, reference)
    ensures CheckConstant(enabled, t, reference).None?
  {
  }

  /** "TRUE" and "True" count as `true`. */
  lemma TrueInAnyCase()
    ensures ToLower("TRUE") == "true" && ToLower("True") == "true"
  {
  }
}
