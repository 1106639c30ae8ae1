/**
 * References from a config item name to the config values that define it
 * (src/main/java/.../config/ConfigReferenceContributor.java).
 */
module ConfigReferenceContributor {
  import opened Wrappers
  import Vfs
  import opened Psi
  import opened MyPsiUtil
  import opened CiProject
  import opened CiConfigUtil
  import opened MyPsiReference

  /** The cast `(ArrayAccessExpression) getVariable()` succeeds: a known file, and a left side that is absent or an array access. */
  predicate CastSucceeds(p: Project, e: Element) {
    e.file in p.psi &&
    (AssignedVariable(p.psi[e.file], e.id).Some? ==> HasKind(p.psi[e.file], AssignedVariable(p.psi[e.file], e.id).value, ArrayAccess))
  }

  /** The target of the reference for one value: its left side's array index, or null. */
  function IndexTarget(p: Project, e: Element): Option<Target>
    requires e.file in p.psi
  {
    match AssignedVariable(p.psi[e.file], e.id)
    case None => None
    case Some(access) =>
      match ArrayIndexOf(p.psi[e.file], access)
      case None => None
      case Some(index) => Some(InFile(Element(e.file, index)))
  }

  /** One reference per value whose left side is present, in the values' order. */
  function ValueReferences(p: Project, literal: Id, values: seq<Element>): seq<Reference>
    requires forall k :: 0 <= k < |values| ==> CastSucceeds(p, values[k])
    decreases |values|
  {
    if values == [] then []
    else
      var last := values[|values| - 1];
      assert CastSucceeds(p, last);
      ValueReferences(p, literal, values[..|values| - 1]) +
      if AssignedVariable(p.psi[last.file], last.id).Some? then [Reference(IndexTarget(p, last), literal)] else []
  }

  /** `getValueReferences`: the loop appending one reference per value with a left side. */
  method GetValueReferences(p: Project, literal: Id, values: seq<Element>) returns (refs: seq<Reference>)
    requires forall k :: 0 <= k < |values| ==> CastSucceeds(p, values[k])
    ensures refs == ValueReferences(p, literal, values)
  {
    refs := [];
    var i := 0;
    while i < |values|
      invariant 0 <= i <= |values|
      invariant refs == ValueReferences(p, literal, values[..i])
    {
      assert values[..i + 1][..i] == values[..i];
      var value := values[i];
      var access := AssignedVariable(p.psi[value.file], value.id);
      if access.Some? {
        refs := refs + [Reference(IndexTarget(p, value), literal)];
      }
      i := i + 1;
    }
    assert values[..|values|] == values;
  }

  /** Assignments found by a two-phase lookup always pass the cast. */
  lemma MatchesPassCast(p: Project, files: seq<Vfs.VFile>, m: KeyMatch)
    ensures var found := MatchingAssignments(p, files, m);
      forall k :: 0 <= k < |found| ==> CastSucceeds(p, found[k])
  {
    var found := MatchingAssignments(p, files, m);
    forall k | 0 <= k < |found|
      ensures CastSucceeds(p, found[k])
    {
      MatchingAssignmentsMember(p, files, m, found[k]);
    }
  }

  /** The left side is an array access with an index. */
  predicate HasIndexedLeft(p: Project, e: Element) {
    e.file in p.psi && LeftIndexText(p.psi[e.file], e.id).Some?
  }

  lemma ConfigValuesPassCast(p: Project, text: string)
    ensures var values := ConfigValues(p, text);
      forall k :: 0 <= k < |values| ==> CastSucceeds(p, values[k])
  {
    var files := FilesWithKey(p, p.configIndex, text);
    var values := ConfigValues(p, text);
    assert values == MatchingAssignments(p, files, IndexTextEqual(text));
    MatchesPassCast(p, files, IndexTextEqual(text));
    forall k | 0 <= k < |values|
      ensures CastSucceeds(p, values[k])
    {
      assert values[k] == MatchingAssignments(p, files, IndexTextEqual(text))[k];
    }
  }

  /**
   * For values whose left side is an indexed array access (as every lookup result's is), there
   * is one reference per value, keeping the literal and resolving to that value's array index.
   */
  lemma {:induction false} ValueReferencesOfIndexed(p: Project, literal: Id, values: seq<Element>)
    requires forall k :: 0 <= k < |values| ==> CastSucceeds(p, values[k]) && HasIndexedLeft(p, values[k])
    ensures |ValueReferences(p, literal, values)| == |values|
    ensures forall k :: 0 <= k < |values| ==>
      ValueReferences(p, literal, values)[k] == Reference(IndexTarget(p, values[k]), literal) && IndexTarget(p, values[k]).Some?
    decreases |values|
  {
    if values != [] {
      var init := values[..|values| - 1];
      var last := values[|values| - 1];
      ValueReferencesOfIndexed(p, literal, init);
      var refs := ValueReferences(p, literal, values);
      assert refs == ValueReferences(p, literal, init) + [Reference(IndexTarget(p, last), literal)];
      forall k | 0 <= k < |values|
        ensures refs[k] == Reference(IndexTarget(p, values[k]), literal) && IndexTarget(p, values[k]).Some?
      {
        if k < |values| - 1 {
          assert values[k] == init[k];
        }
      }
    }
  }

  /** `getReferencesByElement`: references only for an enabled project and a config item name literal. */
  function ConfigReferences(enabled: bool, p: Project, t: Tree, element: Id): seq<Reference> {
    if enabled && HasKind(t, element, StringLiteral) && IsConfigItemNameElement(t, Some(element)) then
      ConfigValuesPassCast(p, Text(t, element));
      ValueReferences(p, element, ConfigValues(p, Text(t, element)))
    else []
  }

  /** `getReferencesByElement`; the literal is passed to `findValuesFor` as its raw text. */
  method GetReferencesByElement(enabled: bool, p: Project, t: Tree, element: Id) returns (refs: seq<Reference>)
    ensures refs == ConfigReferences(enabled, p, t, element)
  {
    if enabled && HasKind(t, element, StringLiteral) && IsConfigItemNameElement(t, Some(element)) {
      var values := FindValuesFor(p, Text(t, element));
      ConfigValuesPassCast(p, Text(t, element));
      refs := GetValueReferences(p, element, values);
    } else {
      refs := [];
    }
  }

  /**
   * Each reference of a config item name resolves to the index of a config value whose raw index
   * text equals the literal's raw text, one per value found.
   */
  lemma ConfigReferencesResolve(enabled: bool, p: Project, t: Tree, element: Id)
    requires enabled && HasKind(t, element, StringLiteral) && IsConfigItemNameElement(t, Some(element))
    ensures var values := ConfigValues(p, Text(t, element));
      && |ConfigReferences(enabled, p, t, element)| == |values|
      && forall k :: 0 <= k < |values| ==>
           && values[k].file in p.psi
           && LeftIndexText(p.psi[values[k].file], values[k].id) == Some(Text(t, element))
           && IndexTarget(p, values[k]).Some?
           && ConfigReferences(enabled, p, t, element)[k] == Reference(IndexTarget(p, values[k]), element)
  {
    var text := Text(t, element);
    var values := ConfigValues(p, text);
    forall k | 0 <= k < |values|
      ensures CastSucceeds(p, values[k]) && HasIndexedLeft(p, values[k])
      ensures LeftIndexText(p.psi[values[k].file], values[k].id) == Some(text)
    {
      ConfigValuesMember(p, text, values[k]);
    }
    ValueReferencesOfIndexed(p, element, values);
  }

  /** No references when the feature is off or the element is not a config item name literal. */
  lemma NoConfigReferences(enabled: bool, p: Project, t: Tree, element: Id)
    requires !enabled || !HasKind(t, element, StringLiteral) || !IsConfigItemNameElement(t, Some(element))
    ensures ConfigReferences(enabled, p, t, element) == []
  {
  }
}
