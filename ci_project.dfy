/**
 * What the CodeIgniter conventions read from a project: its file tree, the syntax trees the PSI
 * manager gives for its files, and the two key indices (language keys and config keys, each a
 * finite map from key to the files holding it). Also the two lookup patterns every convention
 * shares: resolving one relative path under several convention directories, and collecting the
 * assignments of the files that hold a key.
 */
module CiProject {
  import opened Wrappers
  import opened Seqs
  import opened Vfs
  import opened Psi
  import opened MyPsiUtil

  /** A syntax-tree element of some file: which file, which node. */
  datatype Element = Element(file: VFile, id: Id)

  datatype Project = Project(
    vfs: FileTree,
    psi: map<VFile, Tree>,                       // `PsiManager.findFile`: absent means null
    languageIndex: map<string, seq<VFile>>,      // `LanguageFileIndex`, not part of this model
    configIndex: map<string, seq<VFile>>)        // the stored `ConfigFileIndex`

  /** `psiManager.findFile(file) instanceof PhpFile`. */
  predicate IsPhpPsiFile(p: Project, f: VFile) {
    f in p.psi && IsPhpFile(p.vfs, f)
  }

  /**
   * `FileBasedIndex.getFilesWithKey(index, {key}, ..., scope)` with the scope restricted to PHP
   * files: the files holding `key`, in the index's order.
   */
  function FilesWithKey(p: Project, index: map<string, seq<VFile>>, key: string): (r: seq<VFile>)
    ensures |r| > 0 ==> key in index
  {
    if key in index then Filter(index[key], (f: VFile) => IsPhpFile(p.vfs, f)) else []
  }

  lemma FilesWithKeyMember(p: Project, index: map<string, seq<VFile>>, key: string, f: VFile)
    ensures f in FilesWithKey(p, index, key) <==> key in index && f in index[key] && IsPhpFile(p.vfs, f)
  {
    if key in index {
      FilterMember(index[key], (f: VFile) => IsPhpFile(p.vfs, f), f);
    }
  }

  // ---------------------------------------------------------------------------------------
  // Convention path resolution

  /**
   * The lookup in one convention directory: `findFileByRelativePath`, kept only when it is not a
   * directory and the PSI manager knows the file.
   */
  function FileUnder(p: Project, dir: VFile, relativePath: string): (r: Option<VFile>)
    ensures r.Some? ==> FindByRelativePath(p.vfs, dir, relativePath) == r
    ensures r.Some? ==> !IsDirectory(p.vfs, r.value) && r.value in p.psi
  {
    match FindByRelativePath(p.vfs, dir, relativePath)
    case None => None
    case Some(f) => if !IsDirectory(p.vfs, f) && f in p.psi then Some(f) else None
  }

  /** The files the loop over convention directories collects, in directory order. */
  function FilesUnder(p: Project, dirs: seq<VFile>, relativePath: string): (r: seq<VFile>)
    ensures forall f :: f in r ==> !IsDirectory(p.vfs, f) && f in p.psi
    decreases |dirs|
  {
    if dirs == [] then []
    else
      FilesUnder(p, dirs[..|dirs| - 1], relativePath) +
      match FileUnder(p, dirs[|dirs| - 1], relativePath)
      case None => []
      case Some(f) => [f]
  }

  /** The shared loop of `findViewFiles`, `findModelFiles` and `findHelperFiles`. */
  method FindFilesUnder(p: Project, dirs: seq<VFile>, relativePath: string) returns (found: seq<VFile>)
    ensures found == FilesUnder(p, dirs, relativePath)
  {
    found := [];
    var i := 0;
    while i < |dirs|
      invariant 0 <= i <= |dirs|
      invariant found == FilesUnder(p, dirs[..i], relativePath)
    {
      assert dirs[..i + 1][..i] == dirs[..i];
      ghost var step := FileUnder(p, dirs[i], relativePath);
      assert FilesUnder(p, dirs[..i + 1], relativePath) == found + match step case None => [] case Some(f) => [f];
      var file := FindByRelativePath(p.vfs, dirs[i], relativePath);
      if file.Some? && !IsDirectory(p.vfs, file.value) {
        if file.value in p.psi {
          found := found + [file.value];
        }
      }
      i := i + 1;
    }
    assert dirs[..|dirs|] == dirs;
  }

  /** At most one result per convention directory. */
  lemma {:induction false} FilesUnderAtMostOnePerDirectory(p: Project, dirs: seq<VFile>, relativePath: string)
    ensures |FilesUnder(p, dirs, relativePath)| <= |dirs|
    decreases |dirs|
  {
    if dirs != [] {
      FilesUnderAtMostOnePerDirectory(p, dirs[..|dirs| - 1], relativePath);
    }
  }

  /** A file is found exactly when some convention directory's lookup yields it. */
  lemma {:induction false} FilesUnderMember(p: Project, dirs: seq<VFile>, relativePath: string, f: VFile)
    ensures f in FilesUnder(p, dirs, relativePath) <==> exists d :: d in dirs && FileUnder(p, d, relativePath) == Some(f)
    decreases |dirs|
  {
    if dirs != [] {
      var init := dirs[..|dirs| - 1];
      var last := dirs[|dirs| - 1];
      FilesUnderMember(p, init, relativePath, f);
      assert dirs == init + [last];
      if f in FilesUnder(p, dirs, relativePath) {
        if f !in FilesUnder(p, init, relativePath) {
          assert last in dirs && FileUnder(p, last, relativePath) == Some(f);
        }
      } else {
        forall d | d in dirs
          ensures FileUnder(p, d, relativePath) != Some(f)
        {
          if d != last {
            assert d in init;
          }
        }
      }
    }
  }

  // ---------------------------------------------------------------------------------------
  // Two-phase lookup: the files holding a key are re-walked for matching assignments

  /** How a candidate assignment's left side is compared with the key. */
  datatype KeyMatch =
    | ContentsEqual(key: string)   // a string-literal index whose unquoted contents are `key`
    | IndexTextEqual(key: string)  // any index whose raw text, quotes included, is `key`

  /** The raw text of the index of an assignment's left side, when it is an indexed array access. */
  function LeftIndexText(t: Tree, assignment: Id): Option<string> {
    match AssignedVariable(t, assignment)
    case None => None
    case Some(variable) =>
      if HasKind(t, variable, ArrayAccess) then
        match ArrayIndexOf(t, variable)
        case None => None
        case Some(index) => Some(Text(t, index))
      else None
  }

  /**
   * The visitor's test on one node: an assignment it reaches whose left side matches. Its
   * assignment handler does not call `super`, so the visitor never enters an assignment: one
   * nested in another (`$a['x'] = $a['y'] = 1`) is not reached.
   */
  predicate Matches(t: Tree, id: Id, m: KeyMatch) {
    && HasKind(t, id, Assignment)
    && NotInsideKind(t, id, Assignment)
    && match m
       case ContentsEqual(key) => IsArrayAccessWithStringIndex(t, id, key)
       case IndexTextEqual(key) => LeftIndexText(t, id) == Some(key)
  }

  /** The matches among the first `n` nodes of a file, in visiting order. */
  function MatchesIn(f: VFile, t: Tree, n: nat, m: KeyMatch): (r: seq<Element>)
    requires n <= |t|
    ensures |r| <= n
  {
    if n == 0 then []
    else MatchesIn(f, t, n - 1, m) + if Matches(t, n - 1, m) then [Element(f, n - 1)] else []
  }

  /** What one file contributes: its matches, or nothing when it is not a PHP file. */
  function FileMatches(p: Project, f: VFile, m: KeyMatch): seq<Element> {
    if IsPhpPsiFile(p, f) then MatchesIn(f, p.psi[f], |p.psi[f]|, m) else []
  }

  /** Every candidate file is visited (the callback returns true): the matches of all of them. */
  function MatchingAssignments(p: Project, files: seq<VFile>, m: KeyMatch): seq<Element>
    decreases |files|
  {
    if files == [] then []
    else MatchingAssignments(p, files[..|files| - 1], m) + FileMatches(p, files[|files| - 1], m)
  }

  /** The visitor run over every candidate file, appending each matching assignment. */
  method FindMatchingAssignments(p: Project, files: seq<VFile>, m: KeyMatch) returns (r: seq<Element>)
    ensures r == MatchingAssignments(p, files, m)
  {
    r := [];
    var i := 0;
    while i < |files|
      invariant 0 <= i <= |files|
      invariant r == MatchingAssignments(p, files[..i], m)
    {
      assert files[..i + 1][..i] == files[..i];
      var file := files[i];
      if IsPhpPsiFile(p, file) {
        var found := ScanFile(file, p.psi[file], m);
        r := r + found;
      }
      i := i + 1;
    }
    assert files[..|files|] == files;
  }

  /**
   * The recursive visitor over one file: the nodes in document order, skipping those inside an
   * assignment, collecting every matching assignment.
   */
  method ScanFile(f: VFile, t: Tree, m: KeyMatch) returns (found: seq<Element>)
    ensures found == MatchesIn(f, t, |t|, m)
  {
    found := [];
    var id := 0;
    while id < |t|
      invariant 0 <= id <= |t|
      invariant found == MatchesIn(f, t, id, m)
    {
      var hit := Matches(t, id, m);
      assert MatchesIn(f, t, id + 1, m) == found + if hit then [Element(f, id)] else [];
      if hit {
        found := found + [Element(f, id)];
      }
      id := id + 1;
    }
  }

  lemma {:induction false} MatchesInMember(f: VFile, t: Tree, n: nat, m: KeyMatch, e: Element)
    requires n <= |t|
    ensures e in MatchesIn(f, t, n, m) <==> e.file == f && e.id < n && Matches(t, e.id, m)
  {
    if n > 0 {
      MatchesInMember(f, t, n - 1, m, e);
      var last := if Matches(t, n - 1, m) then [Element(f, n - 1)] else [];
      assert MatchesIn(f, t, n, m) == MatchesIn(f, t, n - 1, m) + last;
      assert e in last <==> e == Element(f, n - 1) && Matches(t, n - 1, m);
    }
  }

  /**
   * The lookup returns exactly the assignments, in PHP files among the candidates, whose left
   * side matches the key.
   */
  lemma {:induction false} MatchingAssignmentsMember(p: Project, files: seq<VFile>, m: KeyMatch, e: Element)
    ensures e in MatchingAssignments(p, files, m) <==>
      e.file in files && IsPhpPsiFile(p, e.file) && e.id < |p.psi[e.file]| && Matches(p.psi[e.file], e.id, m)
    decreases |files|
  {
    if files != [] {
      var init := files[..|files| - 1];
      var last := files[|files| - 1];
      assert files == init + [last];
      MatchingAssignmentsMember(p, init, m, e);
      if IsPhpPsiFile(p, last) {
        MatchesInMember(last, p.psi[last], |p.psi[last]|, m, e);
      }
    }
  }

  /** No candidate file, or no match in any of them, gives an empty result rather than an error. */
  lemma NoMatchesWithoutCandidates(p: Project, m: KeyMatch)
    ensures MatchingAssignments(p, [], m) == []
  {
  }
}
