/** Config files, config item names and config value lookup (src/lt/.../config/CiConfigUtil.java). */
module CiConfigUtil {
  import opened Wrappers
  import opened Vfs
  import opened Psi
  import opened MyPsiUtil
  import opened CiProject

  const ConfigDirectoryName: string := "config"

  /**
   * `isConfigFile`: the containing directory is named exactly "config". A file without a
   * containing directory is not a config file.
   */
  predicate IsConfigFile(f: VFile) {
    Parent(f).Some? && Name(Parent(f).value) == ConfigDirectoryName
  }

  /** `isConfigItemNameElement`: argument 0 of `config->item`, `config_item`, `config->set_item` or `config->slash_item`. */
  predicate IsConfigItemNameElement(t: Tree, element: Option<Id>) {
    || IsArgumentOfMethod(t, element, "config", "item", 0)
    || IsArgumentOfFunction(t, element, "config_item", 0)
    || IsArgumentOfMethod(t, element, "config", "set_item", 0)
    || IsArgumentOfMethod(t, element, "config", "slash_item", 0)
  }

  /** Every config item name is argument 0 of a call named one of the four item accessors. */
  lemma ConfigItemNameIsFirstArgument(t: Tree, element: Option<Id>)
    requires IsConfigItemNameElement(t, element)
    ensures || IsArgumentOfFunction(t, element, "item", 0)
            || IsArgumentOfFunction(t, element, "config_item", 0)
            || IsArgumentOfFunction(t, element, "set_item", 0)
            || IsArgumentOfFunction(t, element, "slash_item", 0)
  {
    if IsArgumentOfMethod(t, element, "config", "item", 0) {
      MethodArgumentIsFunctionArgument(t, element, "config", "item", 0);
    } else if IsArgumentOfMethod(t, element, "config", "set_item", 0) {
      MethodArgumentIsFunctionArgument(t, element, "config", "set_item", 0);
    } else if IsArgumentOfMethod(t, element, "config", "slash_item", 0) {
      MethodArgumentIsFunctionArgument(t, element, "config", "slash_item", 0);
    }
  }

  /** What `findValuesFor` returns: the assignments of the files holding `text` whose index text is `text`. */
  function ConfigValues(p: Project, text: string): seq<Element> {
    MatchingAssignments(p, FilesWithKey(p, p.configIndex, text), IndexTextEqual(text))
  }

  /** `findValuesFor(project, text)`. */
  method FindValuesFor(p: Project, text: string) returns (r: seq<Element>)
    ensures r == ConfigValues(p, text)
  {
    var files := FilesWithKey(p, p.configIndex, text);
    r := FindMatchingAssignments(p, files, IndexTextEqual(text));
  }

  /**
   * A value is found exactly when it is an assignment, in a PHP file the index lists for `text`,
   * not nested in another assignment (the visitor does not enter assignments), whose left side is
   * an array access with an index of raw text `text`; the name of the indexed variable plays no
   * part.
   */
  lemma ConfigValuesMember(p: Project, text: string, e: Element)
    ensures e in ConfigValues(p, text) <==>
      && text in p.configIndex && e.file in p.configIndex[text] && IsPhpPsiFile(p, e.file)
      && e.id < |p.psi[e.file]| && HasKind(p.psi[e.file], e.id, Assignment)
      && NotInsideKind(p.psi[e.file], e.id, Assignment)
      && LeftIndexText(p.psi[e.file], e.id) == Some(text)
  {
    MatchingAssignmentsMember(p, FilesWithKey(p, p.configIndex, text), IndexTextEqual(text), e);
    FilesWithKeyMember(p, p.configIndex, text, e.file);
  }

  /** A key the index does not hold gives an empty list. */
  lemma ConfigValuesUnknownKey(p: Project, text: string)
    requires text !in p.configIndex
    ensures ConfigValues(p, text) == []
  {
  }
}
