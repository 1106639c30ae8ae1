/** Language files, language keys and translation lookup (src/lt/.../language/CiLanguageUtil.java). */
module CiLanguageUtil {
  import opened Wrappers
  import opened Strings
  import opened Vfs
  import opened Psi
  import opened MyPsiUtil
  import opened CiProject

  const FileSuffix: string := "_lang.php"

  /** `isLanguageFile`: the file name ends with "_lang.php". */
  predicate IsLanguageFile(f: VFile) {
    EndsWith(Name(f), FileSuffix)
  }

  /** The name test is case-sensitive and looks at the name only, not at the directory. */
  lemma LanguageFileExamples()
    ensures IsLanguageFile(VFile(0, ["application", "language", "english", "form_lang.php"]))
    ensures !IsLanguageFile(VFile(0, ["application", "language", "english", "form_lang.PHP"]))
    ensures !IsLanguageFile(VFile(0, ["application", "language_lang.php", "form.php"]))
  {
    assert "form_lang.php"[4..] == FileSuffix;
    assert "form_lang.PHP"[4..] != FileSuffix by {
      assert "form_lang.PHP"[4..][8] != FileSuffix[8];
    }
    assert "form.php"[..] != FileSuffix;
  }

  /** `isLanguageLineKeyElement`: argument 0 of a function named "lang". */
  predicate IsLanguageLineKeyElement(t: Tree, element: Option<Id>) {
    IsArgumentOfFunction(t, element, "lang", 0)
  }

  /** The private `findTranslationsFor(project, text)`: matching assignments of the files holding `text`. */
  function Translations(p: Project, text: string): seq<Element> {
    MatchingAssignments(p, FilesWithKey(p, p.languageIndex, text), ContentsEqual(text))
  }

  /** The private overload, taking the key as a string. */
  method FindTranslationsForKey(p: Project, text: string) returns (r: seq<Element>)
    ensures r == Translations(p, text)
  {
    var files := FilesWithKey(p, p.languageIndex, text);
    r := FindMatchingAssignments(p, files, ContentsEqual(text));
  }

  /** The public overload: the key is the literal's unquoted contents. */
  method FindTranslationsFor(p: Project, t: Tree, literal: Id) returns (r: seq<Element>)
    ensures r == Translations(p, Contents(t, literal))
  {
    r := FindTranslationsForKey(p, Contents(t, literal));
  }

  /**
   * A translation is an assignment, in a PHP file the language index lists for `text`, not nested
   * in another assignment (the visitor does not enter assignments), whose left side is an array
   * access with a string-literal index of contents exactly `text`.
   */
  lemma TranslationsMember(p: Project, text: string, e: Element)
    ensures e in Translations(p, text) <==>
      && text in p.languageIndex && e.file in p.languageIndex[text] && IsPhpPsiFile(p, e.file)
      && e.id < |p.psi[e.file]| && HasKind(p.psi[e.file], e.id, Assignment)
      && NotInsideKind(p.psi[e.file], e.id, Assignment)
      && LiteralIndexOf(p.psi[e.file], e.id).Some?
      && Contents(p.psi[e.file], LiteralIndexOf(p.psi[e.file], e.id).value) == text
  {
    MatchingAssignmentsMember(p, FilesWithKey(p, p.languageIndex, text), ContentsEqual(text), e);
    FilesWithKeyMember(p, p.languageIndex, text, e.file);
    if e.file in p.psi {
      ArrayAccessWithStringIndexMeans(p.psi[e.file], e.id, text);
    }
  }

  /** An assignment whose index is computed (not a string literal) is never a translation. */
  lemma ComputedIndexSkipped(p: Project, text: string, e: Element)
    requires e.file in p.psi && LiteralIndexOf(p.psi[e.file], e.id).None?
    ensures e !in Translations(p, text)
  {
    TranslationsMember(p, text, e);
  }

  /** A key the language index does not hold gives an empty list. */
  lemma TranslationsUnknownKey(p: Project, text: string)
    requires text !in p.languageIndex
    ensures Translations(p, text) == []
  {
  }
}
