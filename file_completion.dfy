/**
 * The loop the helper, view and model completion providers share
 * (src/lt/.../helper/HelperCompletionProvider.java, src/lt/.../view/ViewCompletionProvider.java,
 * src/main/java/.../model/ModelCompletionProvider.java): every file below each convention
 * directory, visited recursively, that the convention accepts is offered as its path relative
 * to that directory, formatted the convention's way; the lookup element's grey type text is the
 * name of the convention directory's parent (src/main/java/.../contributor/BasicFileLookupElement.java).
 */
module FileCompletion {
  import opened Wrappers
  import opened Strings
  import opened Vfs
  import opened PhpExtensionUtil
  import opened VfsUtilCompat
  import opened CiHelperUtil
  import opened Seqs

  /** Which of the three providers runs the loop. */
  datatype Convention = HelperConvention | ViewConvention | ModelConvention

  /** `BasicFileLookupElement`: the inserted text and the directory whose name is shown beside it. */
  datatype FileLookup = FileLookup(lookup: string, parentDirectory: Option<VFile>)

  /** `renderElement`'s type text: the parent directory's name. */
  function TypeText(s: FileLookup): string {
    match s.parentDirectory
    case None => ""
    case Some(d) => Name(d)
  }

  /** The visitor's file test: helper files; any non-directory; PHP files. */
  predicate Accepts(c: Convention, t: FileTree, f: VFile) {
    match c
    case HelperConvention => IsHelperFile(t, f)
    case ViewConvention => !IsDirectory(t, f)
    case ModelConvention => IsPhpFile(t, f)
  }

  /** The text offered for a relative path: helper-formatted; unchanged; lower-cased without ".php". */
  function Format(c: Convention, relativePath: string): string {
    match c
    case HelperConvention => FormatHelperPath(relativePath)
    case ViewConvention => relativePath
    case ModelConvention => RemoveIfPresent(ToLower(relativePath))
  }

  /**
   * What the visitor adds for one file: nothing when the convention rejects it, when it has no
   * relative path, or when that path is empty (the directory itself).
   */
  function Suggestion(c: Convention, t: FileTree, dir: VFile, f: VFile): (r: Option<FileLookup>)
    ensures r.Some? ==> Accepts(c, t, f) && RelativePath(t, dir, f, '/').Some?
    ensures r.Some? ==> var rel := RelativePath(t, dir, f, '/').value;
      rel != "" && r.value == FileLookup(Format(c, rel), Parent(dir))
  {
    if Accepts(c, t, f) then
      match RelativePath(t, dir, f, '/')
      case None => None
      case Some(rel) => if rel != "" then Some(FileLookup(Format(c, rel), Parent(dir))) else None
    else None
  }

  /** What the visitor makes of each of `files`, in order. */
  function Candidates(c: Convention, t: FileTree, dir: VFile, files: seq<VFile>): (r: seq<Option<FileLookup>>)
    ensures |r| == |files|
  {
    seq(|files|, k requires 0 <= k < |files| => Suggestion(c, t, dir, files[k]))
  }

  /** The suggestions for the visited files of one directory, in visiting order. */
  function SuggestionsIn(c: Convention, t: FileTree, dir: VFile, files: seq<VFile>): (r: seq<FileLookup>)
    ensures |r| <= |files|
  {
    Somes(Candidates(c, t, dir, files))
  }

  /** The suggestions of every convention directory, directory after directory. */
  function Suggestions(c: Convention, t: FileTree, dirs: seq<VFile>): seq<FileLookup>
    decreases |dirs|
  {
    if dirs == [] then []
    else
      var last := dirs[|dirs| - 1];
      Suggestions(c, t, dirs[..|dirs| - 1]) + SuggestionsIn(c, t, last, Descendants(t, last))
  }

  /** The provider's loop over the directories, with `visitChildrenRecursively` inside. */
  method CollectSuggestions(c: Convention, t: FileTree, dirs: seq<VFile>) returns (r: seq<FileLookup>)
    ensures r == Suggestions(c, t, dirs)
  {
    r := [];
    var i := 0;
    while i < |dirs|
      invariant 0 <= i <= |dirs|
      invariant r == Suggestions(c, t, dirs[..i])
    {
      assert dirs[..i + 1][..i] == dirs[..i];
      var dir := dirs[i];
      var found := VisitDirectory(c, t, dir);
      r := r + found;
      i := i + 1;
    }
    assert dirs[..|dirs|] == dirs;
  }

  /** The visitor over one convention directory. */
  method VisitDirectory(c: Convention, t: FileTree, dir: VFile) returns (found: seq<FileLookup>)
    ensures found == SuggestionsIn(c, t, dir, Descendants(t, dir))
  {
    var files := Descendants(t, dir);
    ghost var candidates := Candidates(c, t, dir, files);
    found := [];
    var j := 0;
    while j < |files|
      invariant 0 <= j <= |files|
      invariant found == Somes(candidates[..j])
    {
      SomesStep(candidates, j);
      var suggestion := VisitFile(c, t, dir, files[j]);
      assert suggestion == candidates[j];
      if suggestion.Some? {
        found := found + [suggestion.value];
      }
      j := j + 1;
    }
    assert candidates[..|files|] == candidates;
  }

  /** `visitFile`: the element added for one visited file, if any. */
  method VisitFile(c: Convention, t: FileTree, dir: VFile, file: VFile) returns (s: Option<FileLookup>)
    ensures s == Suggestion(c, t, dir, file)
  {
    s := None;
    if Accepts(c, t, file) {
      var relativePath := FindRelativePath(t, dir, file, '/');
      if relativePath.Some? && relativePath.value != "" {
        s := Some(FileLookup(Format(c, relativePath.value), Parent(dir)));
      }
    }
  }

  lemma SuggestionsInMember(c: Convention, t: FileTree, dir: VFile, files: seq<VFile>, s: FileLookup)
    ensures s in SuggestionsIn(c, t, dir, files) <==> exists f :: f in files && Suggestion(c, t, dir, f) == Some(s)
  {
    var candidates := Candidates(c, t, dir, files);
    if s in SuggestionsIn(c, t, dir, files) {
      SomesSound(candidates, s);
      var k :| 0 <= k < |candidates| && candidates[k] == Some(s);
      assert files[k] in files;
    }
    if exists f :: f in files && Suggestion(c, t, dir, f) == Some(s) {
      var f :| f in files && Suggestion(c, t, dir, f) == Some(s);
      var k :| 0 <= k < |files| && files[k] == f;
      SomesComplete(candidates, k);
    }
  }

  /**
   * Exactly the files the convention accepts below some convention directory, at a non-empty
   * relative path, are offered.
   */
  lemma {:induction false} SuggestionsMember(c: Convention, t: FileTree, dirs: seq<VFile>, s: FileLookup)
    ensures s in Suggestions(c, t, dirs) <==>
      exists d, f :: d in dirs && f in Descendants(t, d) && Suggestion(c, t, d, f) == Some(s)
    decreases |dirs|
  {
    if dirs != [] {
      var init := dirs[..|dirs| - 1];
      var last := dirs[|dirs| - 1];
      assert dirs == init + [last];
      SuggestionsMember(c, t, init, s);
      SuggestionsInMember(c, t, last, Descendants(t, last), s);
    }
  }

  /** Every name on the file's path can be joined with '/' and walked back. */
  predicate PlainPath(f: VFile) {
    forall k :: 0 <= k < |f.path| ==> PlainName(f.path[k]) && f.path[k] != "." && f.path[k] != ".."
  }

  /**
   * For an existing file visited below a directory, the relative path is the names below the
   * directory joined with '/', and `findFileByRelativePath` from the directory finds the file
   * again.
   */
  lemma RelativePathWalksBack(t: FileTree, dir: VFile, f: VFile)
    requires IsDirectory(t, dir)
    requires f in Descendants(t, dir) && Exists(t, f) && PlainPath(f)
    ensures |dir.path| <= |f.path|
    ensures RelativePath(t, dir, f, '/') == Some(Join(f.path[|dir.path|..], '/'))
    ensures FindByRelativePath(t, dir, Join(f.path[|dir.path|..], '/')) == Some(f)
  {
    DescendantsBelow(t, dir, f);
    var names := f.path[|dir.path|..];
    assert forall k :: 0 <= k < |names| ==> names[k] == f.path[|dir.path| + k];
    assert f == VFile(dir.fileSystem, dir.path + names);
    RelativePathBelow(t, dir, names, '/');
    SegmentsOfJoin(names);
    WalkDown(t, dir, names);
  }

  /** Below its directory, a file that is not the directory has a non-empty relative path ending in its name. */
  lemma RelativePathEndsWithName(t: FileTree, dir: VFile, f: VFile)
    requires IsDirectory(t, dir) && !IsDirectory(t, f)
    requires f in Descendants(t, dir) && Exists(t, f) && PlainPath(f)
    ensures |dir.path| < |f.path|
    ensures var rel := Join(f.path[|dir.path|..], '/'); rel != "" && EndsWith(rel, Name(f))
  {
    DescendantsBelow(t, dir, f);
    assert f != dir;
    var names := f.path[|dir.path|..];
    assert names[|names| - 1] == Name(f);
    JoinEndsWithLast(names, '/');
  }
}
