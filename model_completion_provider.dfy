/**
 * Completion of model names inside `$this->load->model(...)`
 * (src/main/java/.../model/ModelCompletionProvider.java).
 */
module ModelCompletionProvider {
  import opened Wrappers
  import opened Strings
  import opened Vfs
  import opened Psi
  import opened MyPsiUtil
  import opened PhpExtensionUtil
  import opened CiProject
  import opened CiModelUtil
  import opened VfsUtilCompat
  import opened FileCompletion

  /** `isModelNameElement`: the caret's parent literal is argument 0 of `load->model`. */
  predicate IsModelNameElement(t: Tree, position: Option<Id>) {
    match GetParentOfType(t, position, StringLiteralExpressionClass)
    case None => false
    case Some(literal) => IsArgumentOfLoadModel(t, Some(literal), 0)
  }

  /** `addCompletions`: every PHP file below every models directory, lower-cased, without ".php". */
  function Completions(enabled: bool, p: Project, t: Tree, position: Option<Id>): seq<FileLookup> {
    if position.Some? && enabled && IsModelNameElement(t, position) then
      Suggestions(ModelConvention, p.vfs, GetModelDirectories(p))
    else []
  }

  method AddCompletions(enabled: bool, p: Project, t: Tree, position: Option<Id>) returns (r: seq<FileLookup>)
    ensures r == Completions(enabled, p, t, position)
  {
    r := [];
    if position.Some? && enabled && IsModelNameElement(t, position) {
      r := CollectSuggestions(ModelConvention, p.vfs, GetModelDirectories(p));
    }
  }

  /**
   * A PHP model file below a models directory is offered as its lower-cased relative path
   * without ".php"; when the path is already lower-case, ends in ".php" and has no other '.',
   * loading that name finds the file again.
   */
  lemma ModelSuggestionResolves(p: Project, d: VFile, f: VFile)
    requires d in GetModelDirectories(p)
    requires f in Descendants(p.vfs, d) && Exists(p.vfs, f) && PlainPath(f)
    requires IsPhpFile(p.vfs, f) && f in p.psi
    ensures |d.path| < |f.path|
    ensures Suggestion(ModelConvention, p.vfs, d, f).Some?
    ensures var rel := Join(f.path[|d.path|..], '/');
      var name := Suggestion(ModelConvention, p.vfs, d, f).value.lookup;
      && name == RemoveIfPresent(ToLower(rel))
      && (ToLower(rel) == rel && EndsWith(Name(f), DotPhp) && '.' !in name ==> f in ModelFiles(p, name))
  {
    RelativePathWalksBack(p.vfs, d, f);
    RelativePathEndsWithName(p.vfs, d, f);
    var rel := Join(f.path[|d.path|..], '/');
    var name := RemoveIfPresent(ToLower(rel));
    assert RelativePath(p.vfs, d, f, '/') == Some(rel) && rel != "";
    assert Accepts(ModelConvention, p.vfs, f);
    assert Format(ModelConvention, rel) == name;
    assert Suggestion(ModelConvention, p.vfs, d, f) == Some(FileLookup(name, Parent(d)));
    if ToLower(rel) == rel && EndsWith(Name(f), DotPhp) && '.' !in name {
      EndsWithTransitive(rel, Name(f), DotPhp);
      PhpSuffixIsExtension(rel);
      AddAfterRemove(rel);
      assert FileUnder(p, d, rel) == Some(f);
      FilesUnderMember(p, GetModelDirectories(p), rel, f);
    }
  }

  /**
   * A capitalised model file, as CodeIgniter 3 names them, is offered lower-cased: "Blog.php"
   * becomes "blog", which the lookup turns into "blog.php", a different name.
   */
  lemma LowerBlog()
    ensures ToLower("Blog.php") == "blog" + DotPhp
  {
    var lower := ToLower("Blog.php");
    var expected := "blog" + DotPhp;
    assert |expected| == |lower| == 8;
    assert lower[0] == 'b' == expected[0] && lower[1] == 'l' == expected[1];
    assert lower[2] == 'o' == expected[2] && lower[3] == 'g' == expected[3];
    assert lower[4] == '.' == expected[4] && lower[5] == 'p' == expected[5];
    assert lower[6] == 'h' == expected[6] && lower[7] == 'p' == expected[7];
  }

  lemma BlogHasNoExtension()
    ensures AddIfMissing("blog") == "blog.php"
  {
    assert '.' !in "blog" by {
      assert forall k :: 0 <= k < 4 ==> "blog"[k] != '.';
    }
    var added := "blog" + DotPhp;
    assert |added| == 8;
    assert added[..4] == "blog" && added[4..] == DotPhp;
  }

  lemma CapitalisedModelName()
    ensures Format(ModelConvention, "Blog.php") == "blog"
    ensures AddIfMissing("blog") == "blog.php" != "Blog.php"
  {
    LowerBlog();
    RemoveAppendedPhp("blog");
    BlogHasNoExtension();
    assert "blog.php"[0] != "Blog.php"[0];
  }

  /**
   * Something is offered exactly at a model-name position of an enabled project, and then
   * exactly the suggestions of the PHP files below the models directories.
   */
  lemma CompletionsMember(enabled: bool, p: Project, t: Tree, position: Option<Id>, s: FileLookup)
    ensures s in Completions(enabled, p, t, position) <==>
      && (position.Some? && enabled && IsModelNameElement(t, position))
      && exists d, f :: d in GetModelDirectories(p) && f in Descendants(p.vfs, d) && Suggestion(ModelConvention, p.vfs, d, f) == Some(s)
  {
    if (position.Some? && enabled && IsModelNameElement(t, position)) {
      SuggestionsMember(ModelConvention, p.vfs, GetModelDirectories(p), s);
    }
  }
}
