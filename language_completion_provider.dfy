/**
 * Completion of language keys inside `lang(...)`
 * (src/lt/.../language/LanguageCompletionProvider.java). Unlike the other providers it does
 * not consult the project's enabled flag.
 */
module LanguageCompletionProvider {
  import opened Wrappers
  import opened Psi
  import LegacyPsiUtil
  import opened MyPsiUtil
  import opened CiProject
  import opened CiLanguageUtil
  import opened KeyCompletion

  /**
   * `isFirstArgumentInLangCall`: the caret's parent is a literal, the literal's parent a
   * parameter list whose first parameter it is, and that list's parent a function reference
   * named "lang".
   */
  predicate IsFirstArgumentInLangCall(t: Tree, position: Option<Id>) {
    match LegacyPsiUtil.GetParentOfType(t, position, StringLiteralExpressionClass)
    case None => false
    case Some(literal) =>
      match LegacyPsiUtil.GetParentOfType(t, Some(literal), ParameterListClass)
      case None => false
      case Some(list) =>
        var parameters := Children(t, list);
        if |parameters| > 0 && parameters[0] == literal then
          match LegacyPsiUtil.GetParentOfType(t, Some(list), FunctionReferenceClass)
          case None => false
          case Some(call) => "lang" == ElementName(t, call)
        else false
  }

  /** `addCompletions`: one suggestion per language key held by some PHP file. */
  function Completions(p: Project, t: Tree, position: Option<Id>, allKeys: seq<string>): seq<KeyLookup> {
    if position.Some? && IsFirstArgumentInLangCall(t, position) then
      KeyCompletions(p, p.languageIndex, allKeys)
    else []
  }

  method AddCompletions(p: Project, t: Tree, position: Option<Id>, allKeys: seq<string>) returns (r: seq<KeyLookup>)
    ensures r == Completions(p, t, position, allKeys)
  {
    r := [];
    if position.Some? && IsFirstArgumentInLangCall(t, position) {
      r := AddKeyCompletions(p, p.languageIndex, allKeys);
    }
  }

  /**
   * Keys are offered exactly where the caret sits in a literal that `CiLanguageUtil` recognises
   * as a language key, so completion and the other language features agree on the place.
   */
  lemma CompletionPlaceIsLanguageKey(t: Tree, position: Option<Id>)
    ensures IsFirstArgumentInLangCall(t, position) <==>
      match LegacyPsiUtil.GetParentOfType(t, position, StringLiteralExpressionClass)
      case None => false
      case Some(literal) => IsLanguageLineKeyElement(t, Some(literal))
  {
  }

  /**
   * Something is offered exactly at the first argument of a `lang` call, whatever the project
   * setting, and then one suggestion for each language key that some PHP file holds.
   */
  lemma CompletionsMember(p: Project, t: Tree, position: Option<Id>, allKeys: seq<string>, s: KeyLookup)
    ensures s in Completions(p, t, position, allKeys) <==>
      && (position.Some? && IsFirstArgumentInLangCall(t, position))
      && exists k :: k in allKeys && KeySuggestion(p, p.languageIndex, k) == Some(s)
  {
    if position.Some? && IsFirstArgumentInLangCall(t, position) {
      KeyCompletionsMember(p, p.languageIndex, allKeys, s);
    }
  }
}
