/**
 * Parent and call-shape tests over the syntax tree
 * (src/main/java/.../psi/MyPsiUtil.java).
 */
module MyPsiUtil {
  import opened Wrappers
  import opened Strings
  import opened Psi

  /**
   * `getParentOfType`: the immediate parent of `element` when it is an instance of `c`;
   * `None` for a missing element, a missing parent or a parent of another class.
   */
  function GetParentOfType(t: Tree, element: Option<Id>, c: PsiClass): (r: Option<Id>)
    ensures r.Some? ==> element.Some? && r == ParentOf(t, element.value) && IsInstance(t[r.value].kind, c)
    ensures r.None? ==> element.None? || ParentOf(t, element.value).None?
                        || !IsInstance(t[ParentOf(t, element.value).value].kind, c)
  {
    match element
    case None => None
    case Some(e) =>
      match ParentOf(t, e)
      case None => None
      case Some(p) => if IsInstance(t[p].kind, c) then Some(p) else None
  }

  /**
   * `isArgumentOfFunction`: `element` is entry `idx` of its parent parameter list (by identity),
   * and that list's parent is a function reference (a method reference counts) named
   * `functionName`.
   */
  predicate IsArgumentOfFunction(t: Tree, element: Option<Id>, functionName: string, idx: nat) {
    match GetParentOfType(t, element, ParameterListClass)
    case None => false
    case Some(list) =>
      var parameters := Children(t, list);
      if idx < |parameters| && parameters[idx] == element.value then
        match GetParentOfType(t, Some(list), FunctionReferenceClass)
        case None => false
        case Some(call) => functionName == t[call].name
      else false
  }

  /**
   * `isArgumentOfMethod`: as `IsArgumentOfFunction` for a method reference named `methodName`
   * whose first child is a field reference named `fieldName` (`$this->field->method(...)`).
   */
  predicate IsArgumentOfMethod(t: Tree, element: Option<Id>, fieldName: string, methodName: string, idx: nat) {
    match GetParentOfType(t, element, ParameterListClass)
    case None => false
    case Some(list) =>
      var parameters := Children(t, list);
      if idx < |parameters| && parameters[idx] == element.value then
        match GetParentOfType(t, Some(list), MethodReferenceClass)
        case None => false
        case Some(call) =>
          if methodName == t[call].name then
            match FirstChild(t, call)
            case None => false
            case Some(receiver) => HasKind(t, receiver, FieldReference) && fieldName == t[receiver].name
          else false
      else false
  }

  /**
   * `isArrayAccessWithStringIndex`: the left side of `assignment` is an array access whose index
   * is a string literal with contents `text`.
   */
  predicate IsArrayAccessWithStringIndex(t: Tree, assignment: Id, text: string) {
    match AssignedVariable(t, assignment)
    case None => false
    case Some(variable) =>
      if HasKind(t, variable, ArrayAccess) then
        match ArrayIndexOf(t, variable)
        case None => false
        case Some(index) =>
          match IndexValue(t, index)
          case None => false
          case Some(value) => HasKind(t, value, StringLiteral) && Contents(t, value) == text
      else false
  }

  /** The string-literal index of an assignment's left side, when there is one. */
  function LiteralIndexOf(t: Tree, assignment: Id): Option<Id> {
    match AssignedVariable(t, assignment)
    case None => None
    case Some(variable) =>
      if HasKind(t, variable, ArrayAccess) then
        match ArrayIndexOf(t, variable)
        case None => None
        case Some(index) =>
          match IndexValue(t, index)
          case None => None
          case Some(value) => if HasKind(t, value, StringLiteral) then Some(value) else None
      else None
  }

  /** The index test holds exactly for a literal index whose contents are `text`. */
  lemma ArrayAccessWithStringIndexMeans(t: Tree, assignment: Id, text: string)
    ensures IsArrayAccessWithStringIndex(t, assignment, text)
      <==> LiteralIndexOf(t, assignment).Some? && Contents(t, LiteralIndexOf(t, assignment).value) == text
  {
  }

  /** An assignment's left side names one key at most: the index test holds for at most one text. */
  lemma StringIndexSelectsOneText(t: Tree, assignment: Id, text1: string, text2: string)
    requires IsArrayAccessWithStringIndex(t, assignment, text1)
    requires IsArrayAccessWithStringIndex(t, assignment, text2)
    ensures text1 == text2
  {
  }

  /**
   * Without a string-literal index (a plain variable on the left, an access without an index, or a
   * computed index such as `$lang[$k]`) the index test fails for every text.
   */
  lemma NoLiteralIndexMatchesNothing(t: Tree, assignment: Id, text: string)
    requires LiteralIndexOf(t, assignment).None?
    ensures !IsArrayAccessWithStringIndex(t, assignment, text)
  {
  }

  /** Both argument tests are false when `idx` is not below the parameter count. */
  lemma ArgumentIndexBeyondParameters(t: Tree, element: Id, name: string, fieldName: string, idx: nat)
    requires ParentOf(t, element).Some? && idx >= |Children(t, ParentOf(t, element).value)|
    ensures !IsArgumentOfFunction(t, Some(element), name, idx)
    ensures !IsArgumentOfMethod(t, Some(element), fieldName, name, idx)
  {
  }

  /** A method reference is a function reference: every method-argument match is a function-argument match. */
  lemma MethodArgumentIsFunctionArgument(t: Tree, element: Option<Id>, fieldName: string, methodName: string, idx: nat)
    requires IsArgumentOfMethod(t, element, fieldName, methodName, idx)
    ensures IsArgumentOfFunction(t, element, methodName, idx)
  {
  }

  /** In a well-formed tree an element sits at one argument position of one call. */
  lemma ArgumentPositionUnique(t: Tree, element: Id, name1: string, idx1: nat, name2: string, idx2: nat)
    requires WellFormed(t)
    requires IsArgumentOfFunction(t, Some(element), name1, idx1)
    requires IsArgumentOfFunction(t, Some(element), name2, idx2)
    ensures idx1 == idx2 && name1 == name2
  {
  }

  /**
   * `lang('x', 'x')`: both literals have the same text, but only the first is argument 0; the
   * position test compares identity, not text.
   */
  lemma PositionIsIdentityNotText()
    ensures var t := LangCallWithTwoEqualLiterals();
      && Text(t, 3) == Text(t, 4)
      && IsArgumentOfFunction(t, Some(3), "lang", 0)
      && !IsArgumentOfFunction(t, Some(4), "lang", 0)
      && IsArgumentOfFunction(t, Some(4), "lang", 1)
  {
    var t := LangCallWithTwoEqualLiterals();
    assert t[2].children == [3, 4];
  }

  /** The tree of `lang('x', 'x')`: file, call, parameter list, two literals. */
  function LangCallWithTwoEqualLiterals(): Tree {
    [ Node(PhpFileKind, "", "lang('x', 'x')", 0, None, [1]),
      Node(FunctionCall, "lang", "lang('x', 'x')", 0, Some(0), [2]),
      Node(ParameterList, "", "'x', 'x'", 5, Some(1), [3, 4]),
      Node(StringLiteral, "", "'x'", 5, Some(2), []),
      Node(StringLiteral, "", "'x'", 10, Some(2), []) ]
  }

  /** `getParentOfType` looks at the immediate parent only: a grandparent of the class is not found. */
  lemma GetParentOfTypeIsImmediate()
    ensures var t := [ Node(ParameterList, "", "", 0, None, [1]),
                       Node(OtherKind, "", "", 0, Some(0), [2]),
                       Node(StringLiteral, "", "", 0, Some(1), []) ];
      GetParentOfType(t, Some(2), ParameterListClass) == None
  {
  }
}
