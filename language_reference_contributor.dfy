/**
 * References from a string literal to the translations that define it
 * (src/lt/.../language/LanguageReferenceContributor.java). The literal's raw text, quotes
 * included, is the key handed to the translation lookup, and the lookup compares it with the
 * unquoted contents of each candidate index.
 */
module LanguageReferenceContributor {
  import opened Wrappers
  import opened Psi
  import opened MyPsiUtil
  import opened CiProject
  import opened CiLanguageUtil
  import opened MyPsiReference
  import opened ConfigReferenceContributor

  lemma TranslationsPassCast(p: Project, text: string)
    ensures var found := Translations(p, text);
      forall k :: 0 <= k < |found| ==> CastSucceeds(p, found[k])
  {
    var files := FilesWithKey(p, p.languageIndex, text);
    var found := Translations(p, text);
    assert found == MatchingAssignments(p, files, ContentsEqual(text));
    MatchesPassCast(p, files, ContentsEqual(text));
    forall k | 0 <= k < |found|
      ensures CastSucceeds(p, found[k])
    {
      assert found[k] == MatchingAssignments(p, files, ContentsEqual(text))[k];
    }
  }

  /** Any string literal, whatever call it sits in, gets one reference per translation of its raw text. */
  function LanguageReferences(p: Project, t: Tree, element: Id): seq<Reference> {
    if HasKind(t, element, StringLiteral) then
      TranslationsPassCast(p, Text(t, element));
      ValueReferences(p, element, Translations(p, Text(t, element)))
    else []
  }

  /** `getReferencesByElement`: the loop appending one reference per translation with a left side. */
  method GetReferencesByElement(p: Project, t: Tree, element: Id) returns (refs: seq<Reference>)
    ensures refs == LanguageReferences(p, t, element)
  {
    if HasKind(t, element, StringLiteral) {
      var translations := FindTranslationsForKey(p, Text(t, element));
      TranslationsPassCast(p, Text(t, element));
      refs := GetValueReferences(p, element, translations);
    } else {
      refs := [];
    }
  }

  /**
   * Every reference of a literal resolves to the array index of a translation whose index literal
   * has the literal's raw text as its contents, one reference per translation.
   */
  lemma LanguageReferencesResolve(p: Project, t: Tree, element: Id)
    requires HasKind(t, element, StringLiteral)
    ensures var found := Translations(p, Text(t, element));
      && |LanguageReferences(p, t, element)| == |found|
      && forall k :: 0 <= k < |found| ==>
           && found[k].file in p.psi
           && LiteralIndexOf(p.psi[found[k].file], found[k].id).Some?
           && Contents(p.psi[found[k].file], LiteralIndexOf(p.psi[found[k].file], found[k].id).value) == Text(t, element)
           && IndexTarget(p, found[k]).Some?
           && LanguageReferences(p, t, element)[k] == Reference(IndexTarget(p, found[k]), element)
  {
    var text := Text(t, element);
    var found := Translations(p, text);
    forall k | 0 <= k < |found|
      ensures CastSucceeds(p, found[k]) && HasIndexedLeft(p, found[k])
      ensures LiteralIndexOf(p.psi[found[k].file], found[k].id).Some?
      ensures Contents(p.psi[found[k].file], LiteralIndexOf(p.psi[found[k].file], found[k].id).value) == text
    {
      TranslationsMember(p, text, found[k]);
    }
    ValueReferencesOfIndexed(p, element, found);
  }

  /**
   * A quoted literal (raw text differs from contents) gets no reference to an assignment whose
   * index contents equal the literal's contents: `lang('foo')` does not refer to `$lang['foo']`.
   */
  lemma QuotedLiteralMissesItsKey(p: Project, t: Tree, element: Id, e: Element)
    requires Text(t, element) != Contents(t, element)
    requires e.file in p.psi && LiteralIndexOf(p.psi[e.file], e.id).Some?
    requires Contents(p.psi[e.file], LiteralIndexOf(p.psi[e.file], e.id).value) == Contents(t, element)
    ensures e !in Translations(p, Text(t, element))
  {
    TranslationsMember(p, Text(t, element), e);
  }

  /** Anything other than a string literal gets no reference. */
  lemma NoLanguageReferences(p: Project, t: Tree, element: Id)
    requires !HasKind(t, element, StringLiteral)
    ensures LanguageReferences(p, t, element) == []
  {
  }
}
