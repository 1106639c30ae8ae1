/**
 * The loop the language-key and config-key completion providers share
 * (src/lt/.../language/LanguageCompletionProvider.java,
 * src/main/java/.../config/ConfigCompletionProvider.java): for every key of the index, the first
 * PHP file holding it is looked up (the callback returns false, which stops the search) and the
 * unquoted key is offered with that file's name, without extension, as grey type text.
 */
module KeyCompletion {
  import opened Wrappers
  import opened Strings
  import opened Seqs
  import opened Vfs
  import opened PhpExtensionUtil
  import opened CiProject

  /** `LanguageLookupElement` / `ConfigLookupElement`: the inserted text and the file shown beside it. */
  datatype KeyLookup = KeyLookup(lookup: string, file: VFile)

  /** `renderElement`'s type text: `getNameWithoutExtension` of the file. */
  function TypeText(s: KeyLookup): (r: string)
    ensures FileExtension(Name(s.file)).Some? ==> r + "." + FileExtension(Name(s.file)).value == Name(s.file)
    ensures FileExtension(Name(s.file)).None? ==> r == Name(s.file)
  {
    NameWithoutExtension(Name(s.file))
  }

  /** What one key contributes: its unquoted text with the first PHP file holding it, if there is one. */
  function KeySuggestion(p: Project, index: map<string, seq<VFile>>, key: string): Option<KeyLookup> {
    var files := FilesWithKey(p, index, key);
    if files == [] then None else Some(KeyLookup(Unquote(key), files[0]))
  }

  /** What each of `allKeys` contributes, in key order. */
  function KeyCandidates(p: Project, index: map<string, seq<VFile>>, allKeys: seq<string>): (r: seq<Option<KeyLookup>>)
    ensures |r| == |allKeys|
  {
    seq(|allKeys|, i requires 0 <= i < |allKeys| => KeySuggestion(p, index, allKeys[i]))
  }

  /** The suggestions for `allKeys` (`getAllKeys`), in key order. */
  function KeyCompletions(p: Project, index: map<string, seq<VFile>>, allKeys: seq<string>): (r: seq<KeyLookup>)
    ensures |r| <= |allKeys|
  {
    Somes(KeyCandidates(p, index, allKeys))
  }

  /** The loop over all keys. */
  method AddKeyCompletions(p: Project, index: map<string, seq<VFile>>, allKeys: seq<string>) returns (r: seq<KeyLookup>)
    ensures r == KeyCompletions(p, index, allKeys)
  {
    ghost var candidates := KeyCandidates(p, index, allKeys);
    r := [];
    var i := 0;
    while i < |allKeys|
      invariant 0 <= i <= |allKeys|
      invariant r == Somes(candidates[..i])
    {
      SomesStep(candidates, i);
      var key := allKeys[i];
      var file := FirstFileWithKey(p, index, key);
      assert candidates[i] == KeySuggestion(p, index, key);
      if file.Some? {
        r := r + [KeyLookup(Unquote(key), file.value)];
      }
      i := i + 1;
    }
    assert candidates[..|allKeys|] == candidates;
  }

  /** `getFilesWithKey` with a processor that returns false: the search stops at the first PHP file. */
  method FirstFileWithKey(p: Project, index: map<string, seq<VFile>>, key: string) returns (r: Option<VFile>)
    ensures r.Some? <==> FilesWithKey(p, index, key) != []
    ensures r.Some? ==> r.value == FilesWithKey(p, index, key)[0]
  {
    if key !in index {
      return None;
    }
    var files := index[key];
    var i := 0;
    while i < |files|
      invariant 0 <= i <= |files|
      invariant forall j :: 0 <= j < i ==> !IsPhpFile(p.vfs, files[j])
    {
      if IsPhpFile(p.vfs, files[i]) {
        FilterFirst(files, (f: VFile) => IsPhpFile(p.vfs, f), i);
        return Some(files[i]);
      }
      i := i + 1;
    }
    FilterNone(files, (f: VFile) => IsPhpFile(p.vfs, f));
    return None;
  }

  /**
   * A key is offered exactly when the index lists a PHP file for it; the offered text is the key
   * without quotes, and the file shown is one of the PHP files holding it.
   */
  lemma KeySuggestionMeans(p: Project, index: map<string, seq<VFile>>, key: string)
    ensures KeySuggestion(p, index, key).Some? <==>
      key in index && exists f :: f in index[key] && IsPhpFile(p.vfs, f)
    ensures KeySuggestion(p, index, key).Some? ==>
      var s := KeySuggestion(p, index, key).value;
      s.lookup == Unquote(key) && s.file in index[key] && IsPhpFile(p.vfs, s.file)
  {
    var files := FilesWithKey(p, index, key);
    if files != [] {
      FilesWithKeyMember(p, index, key, files[0]);
    }
    if key in index && exists f :: f in index[key] && IsPhpFile(p.vfs, f) {
      var f :| f in index[key] && IsPhpFile(p.vfs, f);
      FilesWithKeyMember(p, index, key, f);
    }
  }

  /** A suggestion is offered exactly when some key yields it. */
  lemma KeyCompletionsMember(p: Project, index: map<string, seq<VFile>>, allKeys: seq<string>, s: KeyLookup)
    ensures s in KeyCompletions(p, index, allKeys) <==>
      exists k :: k in allKeys && KeySuggestion(p, index, k) == Some(s)
  {
    var candidates := KeyCandidates(p, index, allKeys);
    if s in KeyCompletions(p, index, allKeys) {
      SomesSound(candidates, s);
      var i :| 0 <= i < |candidates| && candidates[i] == Some(s);
      assert allKeys[i] in allKeys;
    }
    if exists k :: k in allKeys && KeySuggestion(p, index, k) == Some(s) {
      var k :| k in allKeys && KeySuggestion(p, index, k) == Some(s);
      var i :| 0 <= i < |allKeys| && allKeys[i] == k;
      SomesComplete(candidates, i);
    }
  }
}
