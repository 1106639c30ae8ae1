/**
 * `VfsUtilCompat.findRelativePath` (src/lt/.../compat/VfsUtilCompat.java): the relative path
 * from one file to another, with one ".." step per level from the start directory up to the
 * common ancestor, then the names from the common ancestor down to the target.
 */
module VfsUtilCompat {
  import opened Wrappers
  import opened Strings
  import opened Vfs

  /** The directory the path is built from: `src` itself, or its parent when it is not a directory. */
  function StartDirectory(t: FileTree, src: VFile): Option<VFile> {
    if IsDirectory(t, src) then Some(src) else Parent(src)
  }

  /** What the loop appends for `n` steps up: n copies of ".." followed by the separator. */
  function UpSteps(n: nat, sep: char): string {
    if n == 0 then "" else UpSteps(n - 1, sep) + ".." + [sep]
  }

  function DropTrailing(s: string, sep: char): string {
    if |s| > 0 && s[|s| - 1] == sep then s[..|s| - 1] else s
  }

  /** Closed form of the buffer that `findRelativePath` builds; `None` stands for `null`. */
  function RelativePath(t: FileTree, src: VFile, dst: VFile, sep: char): Option<string> {
    if src.fileSystem != dst.fileSystem then None
    else match StartDirectory(t, src)
      case None => None
      case Some(start) =>
        match CommonAncestor(start, dst)
        case None => None
        case Some(ancestor) =>
          Some(DropTrailing(UpSteps(|start.path| - |ancestor.path|, sep) + PathBelow(dst, ancestor, sep), sep))
  }

  method FindRelativePath(t: FileTree, src: VFile, dst: VFile, sep: char) returns (r: Option<string>)
    ensures r == RelativePath(t, src, dst, sep)
  {
    if src.fileSystem != dst.fileSystem {
      return None;
    }
    var current := src;
    if !IsDirectory(t, current) {
      var parent := Parent(current);
      if parent.None? {
        return None;
      }
      current := parent.value;
    }
    assert StartDirectory(t, src) == Some(current);
    var commonAncestor := CommonAncestor(current, dst);
    if commonAncestor.None? {
      return None;
    }
    var ancestor := commonAncestor.value;
    var buffer := ClimbTo(current, ancestor, sep);
    buffer := buffer + PathBelow(dst, ancestor, sep);
    if |buffer| > 0 && buffer[|buffer| - 1] == sep {
      buffer := buffer[..|buffer| - 1];
    }
    return Some(buffer);
  }

  /** The while loop of `findRelativePath`: one ".." and separator per step up to `ancestor`. */
  method ClimbTo(start: VFile, ancestor: VFile, sep: char) returns (buffer: string)
    requires start.fileSystem == ancestor.fileSystem && ancestor.path != []
    requires |ancestor.path| <= |start.path| && ancestor.path == start.path[..|ancestor.path|]
    ensures buffer == UpSteps(|start.path| - |ancestor.path|, sep)
  {
    var current := start;
    buffer := "";
    while current != ancestor
      invariant current.fileSystem == ancestor.fileSystem
      invariant |ancestor.path| <= |current.path| <= |start.path|
      invariant current.path == start.path[..|current.path|]
      invariant buffer == UpSteps(|start.path| - |current.path|, sep)
      invariant |current.path| == |ancestor.path| ==> current == ancestor
      decreases |current.path|
    {
      buffer := buffer + ".." + [sep];
      current := Parent(current).value;
    }
  }

  /** n ".." components. */
  function Dots(n: nat): (r: seq<string>)
    ensures |r| == n && forall k :: 0 <= k < n ==> r[k] == ".."
  {
    seq(n, _ => "..")
  }

  lemma {:induction false} UpStepsAsJoin(n: nat, sep: char)
    requires n > 0
    ensures UpSteps(n, sep) == Join(Dots(n), sep) + [sep]
  {
    if n > 1 {
      UpStepsAsJoin(n - 1, sep);
      JoinAppend(Dots(n - 1), [".."], sep);
      assert Dots(n - 1) + [".."] == Dots(n);
    } else {
      assert Dots(1) == [".."];
    }
  }

  /** The last character of a join is the last character of its last component. */
  lemma {:induction false} JoinLastChar(segments: seq<string>, sep: char)
    requires segments != [] && segments[|segments| - 1] != ""
    ensures var j := Join(segments, sep); var last := segments[|segments| - 1];
      |j| > 0 && j[|j| - 1] == last[|last| - 1]
  {
    if |segments| > 1 {
      JoinLastChar(segments[1..], sep);
    }
  }

  /** The buffer is the joined steps and names, with one separator too many when there are no names. */
  lemma StepsBuffer(n: nat, down: seq<string>, sep: char)
    ensures var j := Join(Dots(n) + down, sep);
      UpSteps(n, sep) + Join(down, sep) == if down == [] && n > 0 then j + [sep] else j
  {
    if n > 0 {
      UpStepsAsJoin(n, sep);
      if down != [] {
        JoinAppend(Dots(n), down, sep);
      } else {
        assert Dots(n) + down == Dots(n);
      }
    } else {
      assert Dots(n) + down == down;
    }
  }

  /** The buffer's two parts, joined and trimmed, are the joined ".." steps and names. */
  lemma StepsThenNames(n: nat, down: seq<string>, sep: char)
    requires sep != '.'
    requires forall k :: 0 <= k < |down| ==> down[k] != "" && sep !in down[k]
    ensures DropTrailing(UpSteps(n, sep) + Join(down, sep), sep) == Join(Dots(n) + down, sep)
    ensures Dots(n) + down != [] ==> !EndsWith(Join(Dots(n) + down, sep), [sep])
  {
    var segments := Dots(n) + down;
    StepsBuffer(n, down, sep);
    if segments != [] {
      JoinLastChar(segments, sep);
      var j := Join(segments, sep);
      assert j[|j| - 1] != sep;
      if down == [] && n > 0 {
        assert (j + [sep])[..|j|] == j;
      }
    }
  }

  /**
   * With non-empty component names that do not contain the separator (and a separator other
   * than '.'), the result is exactly the ".." steps followed by the names below the common
   * ancestor, joined by the separator, and it never ends with the separator.
   */
  lemma RelativePathAsSegments(t: FileTree, src: VFile, dst: VFile, sep: char)
    requires sep != '.'
    requires forall k :: 0 <= k < |dst.path| ==> dst.path[k] != "" && sep !in dst.path[k]
    requires RelativePath(t, src, dst, sep).Some?
    ensures var start := StartDirectory(t, src).value;
      var ancestor := CommonAncestor(start, dst).value;
      var segments := Dots(|start.path| - |ancestor.path|) + dst.path[|ancestor.path|..];
      && RelativePath(t, src, dst, sep).value == Join(segments, sep)
      && (segments != [] ==> !EndsWith(RelativePath(t, src, dst, sep).value, [sep]))
  {
    var start := StartDirectory(t, src).value;
    var ancestor := CommonAncestor(start, dst).value;
    var down := dst.path[|ancestor.path|..];
    assert forall k :: 0 <= k < |down| ==> down[k] == dst.path[|ancestor.path| + k];
    var n := |start.path| - |ancestor.path|;
    assert RelativePath(t, src, dst, sep).value == DropTrailing(UpSteps(n, sep) + Join(down, sep), sep);
    StepsThenNames(n, down, sep);
  }

  lemma {:induction false} CommonPrefixWithExtension(a: seq<string>, names: seq<string>)
    ensures CommonPrefix(a, a + names) == a
  {
    if a != [] {
      assert (a + names)[1..] == a[1..] + names;
      CommonPrefixWithExtension(a[1..], names);
    }
  }

  /**
   * From a directory to a file below it the result has no ".." step: it is the names from the
   * directory down to the file, joined by the separator.
   */
  lemma RelativePathBelow(t: FileTree, dir: VFile, names: seq<string>, sep: char)
    requires IsDirectory(t, dir) && dir.path != []
    requires sep != '.'
    requires forall k :: 0 <= k < |dir.path + names| ==> (dir.path + names)[k] != "" && sep !in (dir.path + names)[k]
    ensures RelativePath(t, dir, VFile(dir.fileSystem, dir.path + names), sep) == Some(Join(names, sep))
  {
    var dst := VFile(dir.fileSystem, dir.path + names);
    CommonPrefixWithExtension(dir.path, names);
    assert CommonAncestor(dir, dst) == Some(dir);
    RelativePathAsSegments(t, dir, dst, sep);
    assert Dots(0) + dst.path[|dir.path|..] == names;
  }

  /** Files on different file systems have no relative path. */
  lemma DifferentFileSystems(t: FileTree, src: VFile, dst: VFile, sep: char)
    requires src.fileSystem != dst.fileSystem
    ensures RelativePath(t, src, dst, sep).None?
  {
  }

  lemma SiblingAncestor()
    ensures CommonAncestor(VFile(0, ["app", "views", "admin"]), VFile(0, ["app", "models", "user.php"]))
      == Some(VFile(0, ["app"]))
  {
    var src := VFile(0, ["app", "views", "admin"]);
    var dst := VFile(0, ["app", "models", "user.php"]);
    assert src.path[1..][0] != dst.path[1..][0] by {
      assert "views"[0] != "models"[0];
    }
    assert CommonPrefix(src.path[1..], dst.path[1..]) == [];
    assert CommonPrefix(src.path, dst.path) == ["app"];
  }

  lemma SiblingBelow()
    ensures PathBelow(VFile(0, ["app", "models", "user.php"]), VFile(0, ["app"]), '/') == "models/user.php"
  {
    var names := ["models", "user.php"];
    assert ["app", "models", "user.php"][1..] == names;
    assert names[1..] == ["user.php"];
    assert Join(names, '/') == "models" + ['/'] + "user.php";
  }

  lemma SiblingText()
    ensures UpSteps(2, '/') + "models/user.php" == "../../models/user.php"
  {
    var text := UpSteps(2, '/') + "models/user.php";
    assert UpSteps(2, '/') == "../../";
    assert |text| == 21;
    assert text[..6] == "../../" && text[6..] == "models/user.php";
  }

  /** A concrete case: from "/app/views/admin" to "/app/models/user.php" is "../../models/user.php". */
  lemma SiblingExample(t: FileTree)
    requires IsDirectory(t, VFile(0, ["app", "views", "admin"]))
    ensures RelativePath(t, VFile(0, ["app", "views", "admin"]), VFile(0, ["app", "models", "user.php"]), '/')
      == Some("../../models/user.php")
  {
    SiblingAncestor();
    SiblingBelow();
    SiblingText();
    var src := VFile(0, ["app", "views", "admin"]);
    assert StartDirectory(t, src) == Some(src);
    assert |src.path| - |["app"]| == 2;
    var text := "../../models/user.php";
    assert text[|text| - 1] != '/';
    assert DropTrailing(text, '/') == text;
  }
}
