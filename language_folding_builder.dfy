/**
 * Folding `lang('key')` calls to the translation they show
 * (src/lt/.../language/LanguageFoldingBuilder.java).
 */
module LanguageFoldingBuilder {
  import opened Wrappers
  import opened Strings
  import opened Psi
  import opened MyPsiUtil
  import opened CiProject
  import opened CiLanguageUtil
  import opened Seqs

  /** A fold over `element`'s text range that displays `placeholder`. */
  datatype FoldingDescriptor = FoldingDescriptor(element: Id, range: TextRange, placeholder: string)

  /** The unquoted text of an assignment's right side, or `None` when it has none. */
  function ValueText(p: Project, e: Element): Option<string> {
    if e.file in p.psi then
      match AssignedValue(p.psi[e.file], e.id)
      case None => None
      case Some(value) => Some(Unquote(Text(p.psi[e.file], value)))
    else None
  }

  /** `getTranslation`: the unquoted value of the first translation of the literal's contents. */
  function GetTranslation(p: Project, t: Tree, literal: Id): Option<string> {
    var translations := Translations(p, Contents(t, literal));
    if translations == [] then None else ValueText(p, translations[0])
  }

  /** `getTranslation` as the builder runs it: the lookup, then the first match's value. */
  method GetTranslationOf(p: Project, t: Tree, literal: Id) returns (r: Option<string>)
    ensures r == GetTranslation(p, t, literal)
  {
    var translations := FindTranslationsFor(p, t, literal);
    if translations == [] {
      return None;
    }
    r := ValueText(p, translations[0]);
  }

  /**
   * A translation shown for a literal is the value of an assignment, in a PHP file the language
   * index lists for the literal's contents, whose index literal has exactly those contents.
   */
  lemma TranslationComesFromMatchingAssignment(p: Project, t: Tree, literal: Id)
    requires GetTranslation(p, t, literal).Some?
    ensures var key := Contents(t, literal);
      var e := Translations(p, key)[0];
      && key in p.languageIndex && e.file in p.languageIndex[key] && IsPhpPsiFile(p, e.file)
      && LiteralIndexOf(p.psi[e.file], e.id).Some?
      && Contents(p.psi[e.file], LiteralIndexOf(p.psi[e.file], e.id).value) == key
      && AssignedValue(p.psi[e.file], e.id).Some?
      && GetTranslation(p, t, literal) == Some(Unquote(Text(p.psi[e.file], AssignedValue(p.psi[e.file], e.id).value)))
  {
    var key := Contents(t, literal);
    TranslationsMember(p, key, Translations(p, key)[0]);
  }

  /** No translation gives no placeholder. */
  lemma NoTranslationNoPlaceholder(p: Project, t: Tree, literal: Id)
    requires Translations(p, Contents(t, literal)) == []
    ensures GetTranslation(p, t, literal).None?
  {
  }

  /** `createDescriptor`: a region over the element's whole text range, displaying the translation. */
  function CreateDescriptor(t: Tree, element: Id, translation: string): (d: FoldingDescriptor)
    ensures d.element == element && d.placeholder == translation
    ensures d.range.endOffset - d.range.startOffset == |Text(t, element)|
  {
    FoldingDescriptor(element, RangeOf(t, element), translation)
  }

  /** `isCollapsedByDefault`: every region starts folded. */
  predicate IsCollapsedByDefault(d: FoldingDescriptor) {
    true
  }

  /** The first argument of a call named "lang", when it is a string literal. */
  function LangKey(t: Tree, id: Id): (r: Option<Id>)
    ensures r.Some? ==> id < |t| && IsInstance(t[id].kind, FunctionReferenceClass) && t[id].name == "lang"
    ensures r.Some? ==> |CallParameters(t, id)| > 0 && r.value == CallParameters(t, id)[0] && HasKind(t, r.value, StringLiteral)
  {
    if id < |t| && IsInstance(t[id].kind, FunctionReferenceClass) && t[id].name == "lang" then
      var parameters := CallParameters(t, id);
      if |parameters| > 0 && HasKind(t, parameters[0], StringLiteral) then Some(parameters[0]) else None
    else None
  }

  /** The region one function reference gives: only for a translated `lang` key. */
  function Region(p: Project, t: Tree, id: Id): Option<FoldingDescriptor> {
    match LangKey(t, id)
    case None => None
    case Some(literal) =>
      match GetTranslation(p, t, literal)
      case None => None
      case Some(translation) => Some(CreateDescriptor(t, literal, translation))
  }

  /** One candidate per node: the file node itself is not visited, every other node gives its region, if any. */
  function Candidates(p: Project, t: Tree): seq<Option<FoldingDescriptor>> {
    seq(|t|, id => if id <= 0 then None else Region(p, t, id))
  }

  /** The regions of the nodes below the file, in the order they are visited. */
  function FoldRegions(p: Project, t: Tree): seq<FoldingDescriptor> {
    Somes(Candidates(p, t))
  }

  /** What a region describes: a string literal, over its own range, showing its translation. */
  predicate Describes(p: Project, t: Tree, d: FoldingDescriptor) {
    && HasKind(t, d.element, StringLiteral)
    && d.range == RangeOf(t, d.element)
    && GetTranslation(p, t, d.element) == Some(d.placeholder)
  }

  /**
   * Each region comes from a qualifying call below the file, covers the full range of that call's
   * string literal and shows the literal's translation.
   */
  lemma FoldRegionsSound(p: Project, t: Tree, d: FoldingDescriptor)
    requires d in FoldRegions(p, t)
    ensures Describes(p, t, d)
    ensures exists id :: 1 <= id < |t| && Region(p, t, id) == Some(d)
  {
    var candidates := Candidates(p, t);
    SomesSound(candidates, d);
    var id :| 0 <= id < |candidates| && candidates[id] == Some(d);
    assert Region(p, t, id) == Some(d);
  }

  /** `buildFoldRegions`: nothing when the feature is off; otherwise one region per translated `lang` key. */
  method BuildFoldRegions(enabled: bool, p: Project, t: Tree) returns (descriptors: seq<FoldingDescriptor>)
    ensures !enabled ==> descriptors == []
    ensures enabled ==> descriptors == FoldRegions(p, t)
  {
    descriptors := [];
    if !enabled {
      return;
    }
    if |t| == 0 {
      return;
    }
    ghost var candidates := Candidates(p, t);
    SomesStep(candidates, 0);
    var id := 1;
    while id < |t|
      invariant 1 <= id <= |t|
      invariant descriptors == Somes(candidates[..id])
    {
      SomesStep(candidates, id);
      var literal := LangKey(t, id);
      if literal.Some? {
        var translation := GetTranslationOf(p, t, literal.value);
        if translation.Some? {
          descriptors := descriptors + [CreateDescriptor(t, literal.value, translation.value)];
        }
      }
      id := id + 1;
    }
    assert candidates[..id] == candidates;
  }

  /** Every translated `lang` key below the file gets its region. */
  lemma FoldRegionsComplete(p: Project, t: Tree, id: Id)
    requires 1 <= id < |t| && Region(p, t, id).Some?
    ensures Region(p, t, id).value in FoldRegions(p, t)
  {
    SomesComplete(Candidates(p, t), id);
  }
}
