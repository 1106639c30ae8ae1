/** Helper files, helper path spellings and helper names (src/lt/.../helper/CiHelperUtil.java). */
module CiHelperUtil {
  import opened Wrappers
  import opened Strings
  import opened Vfs
  import opened Psi
  import opened MyPsiUtil
  import opened CiProject

  const FileSuffix: string := "_helper.php"
  const HelperSuffix: string := "_helper"
  const DotPhp: string := ".php"
  const HelpersDirectoryName: string := "helpers"

  /** `isHelperFile`: a PHP file whose name ends with "_helper.php". */
  predicate IsHelperFile(t: FileTree, f: VFile) {
    IsPhpFile(t, f) && EndsWith(Name(f), FileSuffix)
  }

  /**
   * `formatHelperPath`: `replaceAll("(_helper)?(\\.php)?$", "")`. The leftmost match is the
   * longest of the suffixes "_helper.php", "_helper", ".php" the path ends with, and it is removed.
   */
  function FormatHelperPath(path: string): (r: string)
    ensures StartsWith(path, r)
    ensures path == r + FileSuffix || path == r + HelperSuffix || path == r + DotPhp || path == r
    ensures EndsWith(path, FileSuffix) ==> r + FileSuffix == path
    ensures !EndsWith(path, HelperSuffix) && !EndsWith(path, DotPhp) ==> r == path
  {
    if EndsWith(path, FileSuffix) then path[..|path| - |FileSuffix|]
    else if EndsWith(path, HelperSuffix) then path[..|path| - |HelperSuffix|]
    else if EndsWith(path, DotPhp) then path[..|path| - |DotPhp|]
    else path
  }

  /** Removing the suffix undoes adding it, for every path. */
  lemma FormatHelperPathAfterSuffix(path: string)
    ensures FormatHelperPath(path + FileSuffix) == path
  {
    EndsWithAppend(path, FileSuffix);
  }

  /** Not idempotent: a second application can remove a second "_helper". */
  lemma FormatHelperPathNotIdempotent()
    ensures FormatHelperPath("a_helper_helper") == "a_helper"
    ensures FormatHelperPath(FormatHelperPath("a_helper_helper")) == "a"
  {
    assert EndsWith("a_helper_helper", HelperSuffix) by {
      assert "a_helper_helper"[8..] == HelperSuffix;
    }
    assert EndsWith("a_helper", HelperSuffix) by {
      assert "a_helper"[1..] == HelperSuffix;
    }
  }

  lemma EndsWithShared(a: string, b: string, c: string)
    ensures EndsWith(a + b, c + b) <==> EndsWith(a, c)
  {
    if EndsWith(a + b, c + b) {
      assert (a + b)[|a + b| - |c + b|..] == (a + b)[|a + b| - |c + b|..|a|] + b;
      assert a[|a| - |c|..] == (a + b)[|a + b| - |c + b|..|a|];
    }
    if EndsWith(a, c) {
      assert (a + b)[|a + b| - |c + b|..] == a[|a| - |c|..] + b;
    }
  }

  /** A string ending in `b` ends in a longer `c` only if `c` itself ends in `b`. */
  lemma EndsWithLonger(a: string, b: string, c: string)
    requires |c| >= |b|
    ensures EndsWith(a + b, c) ==> EndsWith(c, b)
  {
    if EndsWith(a + b, c) {
      assert (a + b)[|a + b| - |c|..] == c;
      assert c[|c| - |b|..] == (a + b)[|a|..];
      assert (a + b)[|a|..] == b;
    }
  }

  /** A path ending in ".php" does not end in "_helper": the last characters differ. */
  lemma PhpEndingIsNotHelperEnding(base: string)
    ensures !EndsWith(base + DotPhp, HelperSuffix)
  {
    var s := base + DotPhp;
    assert s[|s| - 1] == 'p';
    assert |HelperSuffix| <= |s| ==> s[|s| - |HelperSuffix|..][|HelperSuffix| - 1] == s[|s| - 1];
  }

  /** "_helper.php" does not end in "_helper". */
  lemma SuffixIsNotHelperEnding()
    ensures !EndsWith(FileSuffix, HelperSuffix)
  {
    assert FileSuffix[|FileSuffix| - |HelperSuffix|..][|HelperSuffix| - 1] == FileSuffix[|FileSuffix| - 1];
  }

  /** "base.php" formats to the base when the base does not end in "_helper". */
  lemma PhpSpelling(base: string)
    requires !EndsWith(base, HelperSuffix)
    ensures FormatHelperPath(base + DotPhp) == base
  {
    var s := base + DotPhp;
    assert !EndsWith(s, FileSuffix) by {
      assert FileSuffix == HelperSuffix + DotPhp;
      EndsWithShared(base, DotPhp, HelperSuffix);
    }
    PhpEndingIsNotHelperEnding(base);
    EndsWithAppend(base, DotPhp);
    assert s[..|s| - |DotPhp|] == base;
  }

  /** "base_helper" formats to the base. */
  lemma HelperSpelling(base: string)
    ensures FormatHelperPath(base + HelperSuffix) == base
  {
    var s := base + HelperSuffix;
    assert !EndsWith(s, FileSuffix) by {
      EndsWithLonger(base, HelperSuffix, FileSuffix);
      SuffixIsNotHelperEnding();
    }
    EndsWithAppend(base, HelperSuffix);
    assert s[..|s| - |HelperSuffix|] == base;
  }

  /** For a base name with none of the suffixes, its four spellings all format to the base. */
  lemma HelperSpellings(base: string)
    requires FormatHelperPath(base) == base
    ensures FormatHelperPath(base + DotPhp) == base
    ensures FormatHelperPath(base + HelperSuffix) == base
    ensures FormatHelperPath(base + FileSuffix) == base
  {
    assert !EndsWith(base, HelperSuffix);
    PhpSpelling(base);
    HelperSpelling(base);
    FormatHelperPathAfterSuffix(base);
  }

  /** `getHelperDirectories`: every directory of the project named exactly "helpers". */
  function GetHelperDirectories(p: Project): (r: seq<VFile>)
    ensures forall d :: d in r ==> Name(d) == HelpersDirectoryName && IsDirectory(p.vfs, d)
  {
    DirectoriesNamed(p.vfs, HelpersDirectoryName)
  }

  lemma HelperDirectoriesExactly(p: Project, d: VFile)
    ensures d in GetHelperDirectories(p) <==> d in AllEntries(p.vfs) && Name(d) == HelpersDirectoryName && IsDirectory(p.vfs, d)
  {
    DirectoriesNamedExactly(p.vfs, HelpersDirectoryName, d);
  }

  /** What `findHelperFiles` returns: the formatted path plus "_helper.php" under each helpers directory. */
  function HelperFiles(p: Project, relativePath: string): seq<VFile> {
    FilesUnder(p, GetHelperDirectories(p), FormatHelperPath(relativePath) + FileSuffix)
  }

  /** `findHelperFiles`. */
  method FindHelperFiles(p: Project, relativePath: string) returns (r: seq<VFile>)
    ensures r == HelperFiles(p, relativePath)
  {
    var fullPath := FormatHelperPath(relativePath) + FileSuffix;
    r := FindFilesUnder(p, GetHelperDirectories(p), fullPath);
  }

  /** "foo", "foo.php", "foo_helper" and "foo_helper.php" resolve to the same files. */
  lemma HelperFilesSpellings(p: Project, base: string)
    requires FormatHelperPath(base) == base
    ensures HelperFiles(p, base + DotPhp) == HelperFiles(p, base)
    ensures HelperFiles(p, base + HelperSuffix) == HelperFiles(p, base)
    ensures HelperFiles(p, base + FileSuffix) == HelperFiles(p, base)
  {
    HelperSpellings(base);
  }

  /** At most one result per helpers directory, never a directory. */
  lemma HelperFilesBounds(p: Project, path: string)
    ensures |HelperFiles(p, path)| <= |GetHelperDirectories(p)|
    ensures forall f :: f in HelperFiles(p, path) ==> !IsDirectory(p.vfs, f)
  {
    FilesUnderAtMostOnePerDirectory(p, GetHelperDirectories(p), FormatHelperPath(path) + FileSuffix);
  }

  predicate IsArgumentOfLoadHelper(t: Tree, element: Option<Id>, argIndex: nat) {
    IsArgumentOfMethod(t, element, "load", "helper", argIndex)
  }

  /**
   * `isHelperNameElement`: a literal whose parent is an array value counts when the enclosing
   * array creation is argument 0 of `load->helper`; any other literal must itself be argument 0.
   */
  predicate IsHelperNameElement(t: Tree, literal: Id) {
    var parent := ParentOf(t, literal);
    if parent.Some? && HasKind(t, parent.value, ArrayValue) then
      IsArgumentOfLoadHelper(t, GetParentOfType(t, parent, ArrayCreationExpressionClass), 0)
    else
      IsArgumentOfLoadHelper(t, Some(literal), 0)
  }

  /** The tree of `$this->load->helper(array('url', 'form'))`. */
  function HelperArrayCall(): Tree {
    [ Node(PhpFileKind, "", "", 0, None, [1]),
      Node(MethodCall, "helper", "", 0, Some(0), [2, 3]),
      Node(FieldReference, "load", "", 0, Some(1), []),
      Node(ParameterList, "", "", 0, Some(1), [4]),
      Node(ArrayCreation, "", "", 0, Some(3), [5, 6]),
      Node(ArrayValue, "", "", 0, Some(4), [7]),
      Node(ArrayValue, "", "", 0, Some(4), [8]),
      Node(StringLiteral, "", "'url'", 0, Some(5), []),
      Node(StringLiteral, "", "'form'", 0, Some(6), []) ]
  }

  /**
   * Every entry of an array passed as argument 0 of `load->helper` is a helper name, although
   * no entry is itself an argument of the call.
   */
  lemma HelperNamesInArray()
    ensures IsHelperNameElement(HelperArrayCall(), 7) && IsHelperNameElement(HelperArrayCall(), 8)
    ensures !IsArgumentOfLoadHelper(HelperArrayCall(), Some(8), 0)
  {
    var t := HelperArrayCall();
    ArrayIsLoadHelperArgument();
    assert GetParentOfType(t, ParentOf(t, 7), ArrayCreationExpressionClass) == Some(4);
    assert GetParentOfType(t, ParentOf(t, 8), ArrayCreationExpressionClass) == Some(4);
    assert GetParentOfType(t, Some(8), ParameterListClass).None?;
  }

  lemma ArrayIsLoadHelperArgument()
    ensures IsArgumentOfLoadHelper(HelperArrayCall(), Some(4), 0)
  {
    var t := HelperArrayCall();
    assert t[3].children == [4];
    assert FirstChild(t, 1) == Some(2);
  }

  /** The tree of `$this->load->helper('foo', 'bar')`. */
  function HelperListCall(): Tree {
    [ Node(PhpFileKind, "", "", 0, None, [1]),
      Node(MethodCall, "helper", "", 0, Some(0), [2, 3]),
      Node(FieldReference, "load", "", 0, Some(1), []),
      Node(ParameterList, "", "", 0, Some(1), [4, 5]),
      Node(StringLiteral, "", "'foo'", 0, Some(3), []),
      Node(StringLiteral, "", "'bar'", 0, Some(3), []) ]
  }

  /**
   * Of several helpers passed as separate arguments, only the first is a helper name: the test
   * asks for argument 0, so `'bar'` in `$this->load->helper('foo', 'bar')` is not one.
   */
  lemma OnlyFirstOfSeveralArguments()
    ensures IsHelperNameElement(HelperListCall(), 4)
    ensures !IsHelperNameElement(HelperListCall(), 5)
  {
    var t := HelperListCall();
    assert t[3].children == [4, 5];
    assert FirstChild(t, 1) == Some(2);
  }
}
