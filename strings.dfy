/**
 * String helpers shared by the model. The host library routines that the plugin calls
 * (`StringUtil.unquoteString`, `String.toLowerCase`, `String.endsWith`, path splitting)
 * are given explicit definitions here; each is an assumption about the host library.
 */
module Strings {
  import opened Wrappers

  predicate StartsWith(s: string, prefix: string) {
    |prefix| <= |s| && s[..|prefix|] == prefix
  }

  predicate EndsWith(s: string, suffix: string) {
    |suffix| <= |s| && s[|s| - |suffix|..] == suffix
  }

  lemma EndsWithAppend(p: string, suffix: string)
    ensures EndsWith(p + suffix, suffix)
  {
    assert (p + suffix)[|p|..] == suffix;
  }

  /** Index of the last occurrence of `c` in `s`, like Java's `String.lastIndexOf`. */
  function LastIndexOf(s: string, c: char): (r: Option<nat>)
    ensures r.None? <==> c !in s
    ensures r.Some? ==> r.value < |s| && s[r.value] == c && c !in s[r.value + 1..]
  {
    if |s| == 0 then None
    else if s[|s| - 1] == c then Some(|s| - 1)
    else
      var r := LastIndexOf(s[..|s| - 1], c);
      assert s == s[..|s| - 1] + [s[|s| - 1]];
      r
  }

  /** Index of the first occurrence of `c` in `s`, like Java's `String.indexOf`. */
  function IndexOf(s: string, c: char): (r: Option<nat>)
    ensures r.None? <==> c !in s
    ensures r.Some? ==> r.value < |s| && s[r.value] == c && c !in s[..r.value]
  {
    if |s| == 0 then None
    else if s[0] == c then Some(0)
    else
      var r := IndexOf(s[1..], c);
      assert s == [s[0]] + s[1..];
      if r.None? then None else Some(r.value + 1)
  }

  lemma LastIndexOfAppend(p: string, q: string, c: char)
    requires c in q
    ensures LastIndexOf(p + q, c).Some?
    ensures LastIndexOf(p + q, c).value == |p| + LastIndexOf(q, c).value
  {
    var i := LastIndexOf(q, c).value;
    assert (p + q)[|p| + i] == c;
    assert (p + q)[|p| + i + 1..] == q[i + 1..];
  }

  /**
   * `StringUtil.unquoteString`: a string of at least two characters that starts with a single or
   * double quote and ends with the same character loses both; anything else is unchanged.
   */
  function Unquote(s: string): (r: string)
    ensures |r| <= |s|
  {
    if |s| > 1 && (s[0] == '\'' || s[0] == '"') && s[0] == s[|s| - 1] then s[1..|s| - 1] else s
  }

  predicate IsQuoteChar(q: char) {
    q == '\'' || q == '"'
  }

  lemma UnquoteQuoted(q: char, contents: string)
    requires IsQuoteChar(q)
    ensures Unquote([q] + contents + [q]) == contents
  {
    var s := [q] + contents + [q];
    assert s[1..|s| - 1] == contents;
  }

  /** Java's `String.toLowerCase` restricted to ASCII letters. */
  function ToLower(s: string): (r: string)
    ensures |r| == |s|
    ensures forall i :: 0 <= i < |s| ==> r[i] == LowerChar(s[i])
  {
    if s == [] then [] else [LowerChar(s[0])] + ToLower(s[1..])
  }

  function LowerChar(c: char): char {
    if 'A' <= c <= 'Z' then (c as int + 32) as char else c
  }

  /** The components of `segments` joined with `sep`: "a", "b" give "a/b". */
  function Join(segments: seq<string>, sep: char): (r: string)
    ensures segments == [] ==> r == ""
  {
    if segments == [] then ""
    else if |segments| == 1 then segments[0]
    else segments[0] + [sep] + Join(segments[1..], sep)
  }

  lemma {:induction false} JoinAppend(a: seq<string>, b: seq<string>, sep: char)
    requires a != [] && b != []
    ensures Join(a + b, sep) == Join(a, sep) + [sep] + Join(b, sep)
  {
    if |a| == 1 {
      assert (a + b)[1..] == b;
    } else {
      assert (a + b)[1..] == a[1..] + b;
      JoinAppend(a[1..], b, sep);
    }
  }

  /** A join ends with its last component. */
  lemma JoinEndsWithLast(segments: seq<string>, sep: char)
    requires segments != []
    ensures EndsWith(Join(segments, sep), segments[|segments| - 1])
  {
    var last := segments[|segments| - 1];
    if |segments| > 1 {
      var init := segments[..|segments| - 1];
      assert segments == init + [last];
      JoinAppend(init, [last], sep);
      EndsWithAppend(Join(init, sep) + [sep], last);
    }
  }

  lemma EndsWithTransitive(a: string, b: string, c: string)
    requires EndsWith(a, b) && EndsWith(b, c)
    ensures EndsWith(a, c)
  {
    assert a[|a| - |c|..] == b[|b| - |c|..];
  }

  /**
   * The non-empty components of a '/'-separated path: consecutive, leading and trailing
   * separators produce no component, as in `VirtualFile.findFileByRelativePath`.
   */
  function Segments(s: string): (r: seq<string>)
    ensures forall k :: 0 <= k < |r| ==> r[k] != "" && '/' !in r[k]
    decreases |s|
  {
    match IndexOf(s, '/')
    case None => if s == "" then [] else [s]
    case Some(i) =>
      if i == 0 then Segments(s[1..]) else [s[..i]] + Segments(s[i + 1..])
  }

  /** A path component that can be joined with '/' and split back. */
  predicate PlainName(name: string) {
    name != "" && '/' !in name
  }

  /** A plain name followed by '/' is the first segment. */
  lemma SegmentsAfterName(name: string, rest: string)
    requires PlainName(name)
    ensures Segments(name + ['/'] + rest) == [name] + Segments(rest)
  {
    var s := name + ['/'] + rest;
    assert s[..|name|] == name;
    assert IndexOf(s, '/') == Some(|name|) by {
      assert s[|name|] == '/';
    }
    assert s[|name| + 1..] == rest;
  }

  lemma {:induction false} SegmentsOfJoin(names: seq<string>)
    requires forall k :: 0 <= k < |names| ==> PlainName(names[k])
    ensures Segments(Join(names, '/')) == names
  {
    if |names| == 1 {
    } else if |names| > 1 {
      SegmentsAfterName(names[0], Join(names[1..], '/'));
      SegmentsOfJoin(names[1..]);
      assert names == [names[0]] + names[1..];
    }
  }
}
