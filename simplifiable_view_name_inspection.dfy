/**
 * The "Simplifiable view name" inspection and its quick fix
 * (src/lt/.../view/CodeIgniterSimplifiableViewNameInspection.java).
 *
 * A view name passed as the first argument of `$this->load->view(...)` that ends in ".php" is
 * reported, because the framework adds that extension itself; the fix rewrites the literal to
 * the name without it, in single quotes.
 */
module SimplifiableViewNameInspection {
  import opened Wrappers
  import opened Strings
  import opened Psi
  import opened MyPsiUtil
  import opened PhpExtensionUtil
  import opened CiProject
  import opened CiViewUtil

  const DisplayName: string := "Simplifiable view name"
  const Message: string := "Unnecessary file extension in view name"
  const FixName: string := "Remove 'php' extension"

  /** A registered problem: the literal, the message and the value the quick fix writes. */
  datatype Problem = Problem(element: Id, message: string, fixValue: string)

  /**
   * `visitPhpStringLiteralExpression`: a view-name literal of an enabled project whose unquoted
   * contents have the extension "php" (exactly, case-sensitively) is reported, and the fix value
   * is those contents without ".php".
   */
  function CheckLiteral(enabled: bool, t: Tree, literal: Id): (r: Option<Problem>)
    ensures r.Some? <==>
      && enabled && HasKind(t, literal, StringLiteral) && IsArgumentOfLoadView(t, Some(literal), 0)
      && FileExtension(Contents(t, literal)) == Some(Php)
    ensures r.Some? ==>
      && r.value.element == literal && r.value.message == Message
      && r.value.fixValue + DotPhp == Contents(t, literal)
  {
    if enabled && HasKind(t, literal, StringLiteral) && IsArgumentOfLoadView(t, Some(literal), 0) then
      var relativePath := Unquote(Text(t, literal));
      var withoutExtension := RemoveIfPresent(relativePath);
      if relativePath != withoutExtension then Some(Problem(literal, Message, withoutExtension)) else None
    else None
  }

  /**
   * The tree after the literal `element` is replaced by the single-quoted `newValue`. Only the
   * literal's own node is rewritten: the stored text of its ancestors and the start offsets of
   * the nodes after it are not recomputed.
   */
  function Fixed(t: Tree, element: Id, newValue: string): (r: Tree)
    requires HasKind(t, element, StringLiteral)
    ensures |r| == |t|
  {
    t[element := t[element].(text := "'" + newValue + "'")]
  }

  /**
   * `RemoveExtensionQuickFix.applyFix`: the problem's element is cast to a string literal (so it
   * must be one) and replaced in place by the new literal.
   */
  method ApplyFix(tree: array<Node>, element: Id, newValue: string)
    requires HasKind(tree[..], element, StringLiteral)
    modifies tree
    ensures tree[..] == Fixed(old(tree[..]), element, newValue)
  {
    tree[element] := tree[element].(text := "'" + newValue + "'");
  }

  /** After the fix the literal's contents are exactly the new value. */
  lemma FixedContents(t: Tree, element: Id, newValue: string)
    requires HasKind(t, element, StringLiteral)
    ensures Contents(Fixed(t, element, newValue), element) == newValue
    ensures HasKind(Fixed(t, element, newValue), element, StringLiteral)
  {
    UnquoteQuoted('\'', newValue);
    assert "'" + newValue + "'" == ['\''] + newValue + ['\''];
  }

  /** Replacing a literal's text leaves every call-shape test unchanged. */
  lemma {:induction false} FixedKeepsShape(t: Tree, element: Id, newValue: string, e: Option<Id>, idx: nat)
    requires HasKind(t, element, StringLiteral)
    ensures IsArgumentOfLoadView(Fixed(t, element, newValue), e, idx) == IsArgumentOfLoadView(t, e, idx)
  {
    var f := Fixed(t, element, newValue);
    assert forall i :: 0 <= i < |t| ==>
      f[i].kind == t[i].kind && f[i].name == t[i].name && f[i].parent == t[i].parent && f[i].children == t[i].children;
    var list := GetParentOfType(t, e, ParameterListClass);
    assert GetParentOfType(f, e, ParameterListClass) == list;
    if list.Some? {
      assert Children(f, list.value) == Children(t, list.value);
      var call := GetParentOfType(t, list, MethodReferenceClass);
      assert GetParentOfType(f, list, MethodReferenceClass) == call;
      if call.Some? {
        assert FirstChild(f, call.value) == FirstChild(t, call.value);
      }
    }
  }

  /**
   * The fix removes the problem unless the fix value itself ends in ".php": "a.php.php" becomes
   * "a.php", which is reported again.
   */
  lemma FixThenRecheck(enabled: bool, t: Tree, literal: Id)
    requires CheckLiteral(enabled, t, literal).Some?
    ensures var v := CheckLiteral(enabled, t, literal).value.fixValue;
      CheckLiteral(enabled, Fixed(t, literal, v), literal).Some? <==> FileExtension(v) == Some(Php)
  {
    var v := CheckLiteral(enabled, t, literal).value.fixValue;
    FixedContents(t, literal, v);
    FixedKeepsShape(t, literal, v, Some(literal), 0);
  }

  /** Nothing is reported for a view name without an extension or with another extension. */
  lemma NoProblemWithoutPhpExtension(enabled: bool, t: Tree, literal: Id)
    requires FileExtension(Contents(t, literal)) != Some(Php)
    ensures CheckLiteral(enabled, t, literal).None?
  {
  }

  /**
   * When the name left by the fix has no other '.', the call still loads the same view: the
   * lookup adds ".php" back. With a dotted directory ("v1.0/welcome.php") it does not.
   */
  lemma FixKeepsViewFiles(p: Project, path: string)
    requires FileExtension(path) == Some(Php) && '.' !in RemoveIfPresent(path)
    ensures ViewFiles(p, RemoveIfPresent(path)) == ViewFiles(p, path)
  {
    AddAfterRemove(path);
  }
}
