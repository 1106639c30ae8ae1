/**
 * The PHP syntax tree as a flat table of nodes. A node's index is its identity (the host
 * compares elements with `==`); each node has a kind, a name (functions, methods, fields,
 * variables, constants), its raw source text, its start offset, a parent link and its children.
 *
 * In a well-formed tree node 0 is the file, every other node's parent has a smaller index, and
 * indices follow document order, so visiting the indices in increasing order is the host's
 * recursive visitor, once the subtrees that a non-descending handler hides are skipped
 * (`NotInsideKind`).
 */
module Psi {
  import opened Wrappers
  import opened Strings

  type Id = nat

  datatype Kind =
    | PhpFileKind
    | StringLiteral
    | ParameterList
    | FunctionCall        // a `FunctionReference` that is not a method reference
    | MethodCall          // a `MethodReference`; in the host it is also a `FunctionReference`
    | FieldReference
    | Variable
    | ArrayAccess
    | ArrayIndex
    | ArrayCreation
    | ArrayValue
    | Assignment
    | ConstantReference
    | Statement
    | OtherKind

  datatype Node = Node(kind: Kind, name: string, text: string, start: nat, parent: Option<Id>, children: seq<Id>)

  type Tree = seq<Node>

  /** The host classes that the plugin passes to `getParentOfType`. */
  datatype PsiClass =
    | StringLiteralExpressionClass
    | ParameterListClass
    | FunctionReferenceClass
    | MethodReferenceClass
    | ArrayCreationExpressionClass

  /** `parentClass.isInstance(node)`: a method reference is also a function reference. */
  predicate IsInstance(k: Kind, c: PsiClass) {
    match c
    case StringLiteralExpressionClass => k == StringLiteral
    case ParameterListClass => k == ParameterList
    case FunctionReferenceClass => k == FunctionCall || k == MethodCall
    case MethodReferenceClass => k == MethodCall
    case ArrayCreationExpressionClass => k == ArrayCreation
  }

  /** Every parent link points to a node earlier in document order. */
  predicate ParentsPrecede(t: Tree) {
    forall i :: 0 <= i < |t| && t[i].parent.Some? ==> t[i].parent.value < i
  }

  predicate WellFormed(t: Tree) {
    && |t| > 0
    && t[0].parent == None
    && (forall i :: 0 < i < |t| ==> t[i].parent.Some?)
    && ParentsPrecede(t)
    && (forall i, j :: 0 <= i < |t| && 0 <= j < |t[i].children| ==>
          t[i].children[j] < |t| && t[t[i].children[j]].parent == Some(i))
    && (forall i :: 0 < i < |t| ==> i in t[t[i].parent.value].children)
    && (forall i, j, k :: 0 <= i < |t| && 0 <= j < k < |t[i].children| ==>
          t[i].children[j] != t[i].children[k])
  }

  predicate HasKind(t: Tree, id: Id, k: Kind) {
    id < |t| && t[id].kind == k
  }

  /** `getParent()`; `None` for the file node and for a dangling link. */
  function ParentOf(t: Tree, id: Id): (r: Option<Id>)
    ensures r.Some? ==> r.value < |t|
  {
    if id < |t| && t[id].parent.Some? && t[id].parent.value < |t| then t[id].parent else None
  }

  function Children(t: Tree, id: Id): seq<Id> {
    if id < |t| then t[id].children else []
  }

  /** `getFirstChild()`, or a `PhpPsiElement`'s first element child. */
  function FirstChild(t: Tree, id: Id): (r: Option<Id>)
    ensures r.Some? ==> r.value < |t|
  {
    var cs := Children(t, id);
    if |cs| > 0 && cs[0] < |t| then Some(cs[0]) else None
  }

  function FirstOfKind(t: Tree, ids: seq<Id>, k: Kind): (r: Option<Id>)
    ensures r.Some? ==> r.value in ids && HasKind(t, r.value, k)
    ensures r.None? ==> forall i :: i in ids ==> !HasKind(t, i, k)
  {
    if ids == [] then None
    else if HasKind(t, ids[0], k) then Some(ids[0])
    else FirstOfKind(t, ids[1..], k)
  }

  /** The first child of kind `k` (`PsiTreeUtil.getChildOfType`). */
  function ChildOfKind(t: Tree, id: Id, k: Kind): Option<Id> {
    FirstOfKind(t, Children(t, id), k)
  }

  function ElementName(t: Tree, id: Id): string {
    if id < |t| then t[id].name else ""
  }

  function Text(t: Tree, id: Id): string {
    if id < |t| then t[id].text else ""
  }

  /** `StringLiteralExpression.getContents()`: the raw text without its quotes. */
  function Contents(t: Tree, id: Id): string {
    Unquote(Text(t, id))
  }

  /** `getParameters()` of a call: the children of its parameter list. */
  function CallParameters(t: Tree, call: Id): seq<Id> {
    match ChildOfKind(t, call, ParameterList)
    case None => []
    case Some(list) => Children(t, list)
  }

  /** `ArrayAccessExpression.getIndex()`. */
  function ArrayIndexOf(t: Tree, access: Id): Option<Id> {
    ChildOfKind(t, access, ArrayIndex)
  }

  /** `ArrayIndex.getValue()`: the expression inside the brackets. */
  function IndexValue(t: Tree, index: Id): Option<Id> {
    FirstChild(t, index)
  }

  /** `AssignmentExpression.getVariable()`: the left side. */
  function AssignedVariable(t: Tree, assignment: Id): Option<Id> {
    FirstChild(t, assignment)
  }

  /** `AssignmentExpression.getValue()`: the right side, the second element child. */
  function AssignedValue(t: Tree, assignment: Id): (r: Option<Id>)
    ensures r.Some? ==> r.value < |t|
  {
    var cs := Children(t, assignment);
    if |cs| > 1 && cs[1] < |t| then Some(cs[1]) else None
  }

  /** A text range as (start offset, end offset). */
  datatype TextRange = TextRange(startOffset: nat, endOffset: nat)

  function RangeOf(t: Tree, id: Id): (r: TextRange)
    ensures r.endOffset - r.startOffset == |Text(t, id)|
  {
    var s := if id < |t| then t[id].start else 0;
    TextRange(s, s + |Text(t, id)|)
  }

  /** Nearest strict ancestor of class `c` (`PsiTreeUtil.getParentOfType`). */
  function NearestAncestor(t: Tree, id: Id, c: PsiClass): (r: Option<Id>)
    ensures r.Some? ==> r.value < |t| && IsInstance(t[r.value].kind, c)
    decreases id
  {
    match ParentOf(t, id)
    case None => None
    case Some(p) =>
      if IsInstance(t[p].kind, c) then Some(p)
      else if p < id then NearestAncestor(t, p, c)
      else None
  }

  /**
   * No strict ancestor of `id` has kind `k`. A recursive visitor whose handler for kind `k` does
   * not call `super` never enters such a node's children, so it reaches exactly these nodes. A
   * parent link that does not point to an earlier node ends the walk unreached.
   */
  predicate NotInsideKind(t: Tree, id: Id, k: Kind)
    decreases id
  {
    match ParentOf(t, id)
    case None => true
    case Some(p) => p < id && t[p].kind != k && NotInsideKind(t, p, k)
  }

  /** All ids of the tree in document order. */
  function AllIds(t: Tree): (r: seq<Id>)
    ensures |r| == |t| && forall i :: 0 <= i < |t| ==> r[i] == i
  {
    seq(|t|, i => i)
  }
}
