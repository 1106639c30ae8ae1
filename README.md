# CodeIgniter plugin core, modelled in Dafny

This project models the language-independent core of the CodeIgniter plugin for IntelliJ-based
IDEs (PhpStorm). That plugin gives a CodeIgniter 3 project editor support: completion,
navigation, folding and inspections for the framework's string-keyed conventions:

- views, loaded with `$this->load->view('name')` and found under every `views` directory;
- models, loaded with `$this->load->model('name')` and found under `models`;
- helpers, loaded with `$this->load->helper('name')` or `helper(array(...))` and found as
  `name_helper.php` under `helpers`;
- language lines, looked up with `lang('key')` in `*_lang.php` files;
- config items, read with `config_item('key')` or `$this->config->item/set_item/slash_item('key')`
  and indexed from `$config[...]` accesses in files of a `config` directory.

The host IDE's machinery becomes plain values:

- A PHP syntax tree is a flat sequence of nodes (`Psi`). A node's id is its identity.
- The project's file tree is a finite tree of named files and directories (`Vfs`).
- Each key index is a finite map from key to the files that hold it (`CiProject.Project`).
- The "plugin enabled" setting is a boolean parameter of every entry point that reads it.

Each source file of the core has one module, named after it:

- Pure decisions are functions and predicates: path normalisation, call-shape tests, the
  inspections' report decisions, key extraction and references.
- Every loop of the source is a method with loop invariants, proved equal to a specification
  function:
  - the lookups over convention directories;
  - the visitors that collect matching assignments;
  - the index's `map`;
  - the relative-path builder;
  - the completion loops;
  - the reference lists and the folding loop.
- The quick fix, which replaces a syntax node in place, is a method over an `array` of nodes.

Properties are then proved about the specification functions, including:

- Round trips of the extension and helper-suffix normalisation.
- Each lookup returns exactly the files or assignments that match (both directions).
- Every assignment the config index records is found by the value lookup, unless it is nested in
  another assignment.
- A suggested file name resolves back to its file when the name survives the provider's
  formatting (the `*SuggestionResolves` lemmas). The lemmas `CapitalisedModelName`,
  `BareSuffixFileOffersEmptyName` and `FormatHelperPathNotIdempotent` show names that do not.
- Every reference resolves to a definition of the key.

The two source trees (`src/lt/...` and `src/main/java/...`) are different versions of the plugin.
Each body is modelled as it is written. Where they call each other with mismatched signatures, a
small adapter is used:

- The config reference contributor passes the literal's raw text to `findValuesFor`.
- The language reference contributor passes the raw text to the private overload of
  `findTranslationsFor`.

## Assumptions about the host

The bodies of these host functions are not part of this model. Each is given an explicit
definition:

- `PathUtil.getFileExtension` is the text after the last '.' of the whole path, and none when
  the path has no '.'.
- `PhpNameUtil.getNameWithoutExtension` is the text before that '.'.
- `StringUtil.unquoteString` removes one matching pair of single or double quotes.
- A string literal's contents are its unquoted text.
- `toLowerCase` and `PhpLangUtil.isTrue` use ASCII case folding.
- `findFileByRelativePath` splits on '/'. It skips empty segments, stays put on "." and moves to
  the parent on "..".
- `visitChildrenRecursively` visits the directory itself, then its entries, in preorder.
- `FilenameIndex.getFilesByName` lists the project's entries with that exact name.
- The host's `VfsUtil.findRelativePath`, used by the view and helper providers, is taken to
  behave as the plugin's own copy in `VfsUtilCompat`.
- `PsiTreeUtil.findChildrenOfType` and the recursive PHP visitors visit nodes in id order. The
  plugin's visitor handlers do not call `super`, so the visitor never enters a node its handler
  takes. A node is reached exactly when no strict ancestor has the handled kind
  (`Psi.NotInsideKind`): array accesses for the config indexer, assignments for the two lookups.
- `PsiTreeUtil.getParentOfType` is the nearest strict ancestor of the requested kind.
- In the host a method call is also a function reference, so the function-argument test also
  accepts method calls.

## Behaviour worth knowing (proved)

These are documented in lemmas:

- `PhpExtensionUtil.AddAfterRemoveDottedDirectory`: the extension is taken from the whole path.
  "v1.0/welcome.php" is shortened to "v1.0/welcome", and `addIfMissing` then sees the
  extension "0/welcome" and adds nothing back. So `addIfMissing(removeIfPresent(p)) == p` holds
  exactly when the shortened path has no '.' (`PhpExtensionUtil.AddAfterRemove`), not for every
  ".php" path.
- `CiHelperUtil.FormatHelperPathNotIdempotent`: "a_helper_helper" becomes "a_helper", then "a".
- `HelperCompletionProvider.BareSuffixFileOffersEmptyName`: the emptiness check comes before
  formatting. A file called "_helper.php" directly in a helpers directory is therefore offered
  as the empty name.
- `ModelCompletionProvider.CapitalisedModelName`: model suggestions are lower-cased. "Blog.php" is
  offered as "blog", which looks up "blog.php".
- `LanguageReferenceContributor.QuotedLiteralMissesItsKey`: the language reference contributor
  looks keys up by the literal's raw text, quotes included. A quoted literal therefore does not
  find the translations its contents name.
- `ConfigCompletionProvider.SingleQuotedSuggestionIsTheKey`: config keys are indexed with their
  quotes. A suggested name written back in single quotes looks up exactly the key it came from.
  Written in double quotes it is another key, under which none of those values is found. The
  lookup finds a value only under `FindValuesForComplete`'s conditions: the assignment must not
  be nested in another one.
- `SimplifiableViewNameInspection.FixThenRecheck`: after the quick fix, the literal is reported
  again exactly when the fixed name still ends in ".php" ("a.php.php").
- `ConfigFileIndex.NestedAccessNotIndexed`: `$config['a']['b'] = 1;` gives no key. The outer
  access is visited, but its first child is an access and not a variable, and the inner
  `$config['a']` is inside it.
- `ConfigFileIndex.ChainedAssignmentNotFound`: in `$config['a'] = $config['b'] = 1;` the indexer
  records "'b'", but the lookup for "'b'" does not return the inner assignment. The lookup's
  visitor stops at the outer assignment, whose index is "'a'". The same holds for chained
  `$lang[...]` assignments.
- `CiHelperUtil.OnlyFirstOfSeveralArguments`: the doc comment of `isHelperNameElement` lists
  `$this->load->helper('foo', 'bar', 'baz')` as naming three helpers. The code tests argument 0
  only, so `'bar'` is not a helper name. The model follows the code.

## Model

| member | source | states |
|---|---|---|
| PhpExtensionUtil.FileExtension | src/lt/martynassateika/idea/codeigniter/view/PhpExtensionUtil.java:36 | the extension the source tests: none exactly when the path has no '.', otherwise a dot-free text that ends the path after a '.' |
| PhpExtensionUtil.NameWithoutExtension | src/lt/martynassateika/idea/codeigniter/view/PhpExtensionUtil.java:49 | the name without extension, followed by "." and the extension, gives back the path; without an extension it is the path |
| PhpExtensionUtil.AddIfMissing | src/lt/martynassateika/idea/codeigniter/view/PhpExtensionUtil.java:35-41 | ".php" is appended exactly when the path has no extension, otherwise the path is unchanged; the result always has an extension |
| PhpExtensionUtil.RemoveIfPresent | src/lt/martynassateika/idea/codeigniter/view/PhpExtensionUtil.java:47-52 | with extension exactly "php" the result followed by ".php" is the path; any other path (other or no extension) is unchanged; never longer |
| PhpExtensionUtil.AddIfMissingIdempotent | src/lt/martynassateika/idea/codeigniter/view/PhpExtensionUtil.java:35-41 | a second addIfMissing changes nothing |
| PhpExtensionUtil.RemoveAppendedPhp | src/lt/martynassateika/idea/codeigniter/view/PhpExtensionUtil.java:47-52 | removeIfPresent(p + ".php") is p for every p |
| PhpExtensionUtil.PhpSuffixIsExtension | src/lt/martynassateika/idea/codeigniter/view/PhpExtensionUtil.java:48 | every path ending in ".php" has the extension "php", so removal applies to it |
| PhpExtensionUtil.RemoveAfterAdd | src/lt/martynassateika/idea/codeigniter/view/PhpExtensionUtil.java:35-52 | for a path without '.', removeIfPresent undoes addIfMissing |
| PhpExtensionUtil.AddAfterRemove | src/lt/martynassateika/idea/codeigniter/view/PhpExtensionUtil.java:35-52 | for a ".php" path, addIfMissing restores what removeIfPresent took exactly when the shortened path has no '.' |
| PhpExtensionUtil.AddAfterRemoveDottedDirectory | src/lt/martynassateika/idea/codeigniter/view/PhpExtensionUtil.java:35-52 | "v1.0/welcome.php" loses ".php" and does not get it back |
| PhpExtensionUtil.RemoveIfPresentCaseSensitive | src/lt/martynassateika/idea/codeigniter/view/PhpExtensionUtil.java:48 | the extension comparison is case-sensitive: "welcome.PHP" is unchanged |
| CiHelperUtil.IsHelperFile | src/lt/martynassateika/idea/codeigniter/helper/CiHelperUtil.java:51-53 | a helper file is a PHP file whose name ends in "_helper.php" |
| CiHelperUtil.IsArgumentOfLoadHelper | src/lt/martynassateika/idea/codeigniter/helper/CiHelperUtil.java:131-133 | the element is argument argIndex of a method named "helper" called on a field named "load" |
| CiHelperUtil.IsHelperNameElement | src/lt/martynassateika/idea/codeigniter/helper/CiHelperUtil.java:113-124 | a literal inside an array value names a helper when the enclosing array creation is argument 0 of load->helper; any other literal must itself be that argument |
| CiHelperUtil.FormatHelperPath | src/lt/martynassateika/idea/codeigniter/helper/CiHelperUtil.java:59-61 | the result is a prefix of the path that differs from it by at most one trailing "_helper.php", "_helper" or ".php"; a path ending in "_helper.php" loses exactly that; a path ending in neither "_helper" nor ".php" is unchanged |
| CiHelperUtil.FormatHelperPathAfterSuffix | src/lt/martynassateika/idea/codeigniter/helper/CiHelperUtil.java:59-61 | formatHelperPath(p + "_helper.php") is p for every p |
| CiHelperUtil.FormatHelperPathNotIdempotent | src/lt/martynassateika/idea/codeigniter/helper/CiHelperUtil.java:60 | formatting twice can shorten twice: "a_helper_helper" becomes "a_helper", then "a" |
| CiHelperUtil.HelperSpellings | src/lt/martynassateika/idea/codeigniter/helper/CiHelperUtil.java:74-75 | for a name that formatting keeps, the name with ".php", "_helper" or "_helper.php" appended formats to the name |
| CiHelperUtil.GetHelperDirectories | src/lt/martynassateika/idea/codeigniter/helper/CiHelperUtil.java:95-99 | only directories named exactly "helpers" are returned |
| CiHelperUtil.HelperDirectoriesExactly | src/lt/martynassateika/idea/codeigniter/helper/CiHelperUtil.java:95-99 | an entry is a helpers directory exactly when it is a directory of the project named "helpers" |
| CiHelperUtil.FindHelperFiles | src/lt/martynassateika/idea/codeigniter/helper/CiHelperUtil.java:71-88 | the loop over helpers directories returns the lookup of the formatted name plus "_helper.php" in each, in directory order |
| CiHelperUtil.HelperFilesSpellings | src/lt/martynassateika/idea/codeigniter/helper/CiHelperUtil.java:74-75 | "foo", "foo.php", "foo_helper" and "foo_helper.php" find the same files |
| CiHelperUtil.HelperFilesBounds | src/lt/martynassateika/idea/codeigniter/helper/CiHelperUtil.java:78-88 | at most one file per helpers directory, and never a directory |
| CiHelperUtil.HelperNamesInArray | src/lt/martynassateika/idea/codeigniter/helper/CiHelperUtil.java:113-133 | in helper(array('url', 'form')) both literals are helper names because their array is argument 0, though neither literal is itself argument 0 |
| CiHelperUtil.OnlyFirstOfSeveralArguments | src/lt/martynassateika/idea/codeigniter/helper/CiHelperUtil.java:104-124 | of several helpers passed as separate arguments only the first is a helper name, unlike the method's doc comment |
| MyPsiUtil.IsArgumentOfFunction | src/main/java/lt/martynassateika/idea/codeigniter/psi/MyPsiUtil.java:67-79 | the element is argument idx of a call (function or method) with the given name |
| MyPsiUtil.IsArgumentOfMethod | src/main/java/lt/martynassateika/idea/codeigniter/psi/MyPsiUtil.java:90-110 | the element is argument idx of a method call with the given name on a field with the given name |
| MyPsiUtil.GetParentOfType | src/main/java/lt/martynassateika/idea/codeigniter/psi/MyPsiUtil.java:47-59 | the result is the immediate parent exactly when the element and its parent exist and the parent has the requested kind, and none otherwise |
| MyPsiUtil.IsArrayAccessWithStringIndex | src/main/java/lt/martynassateika/idea/codeigniter/psi/MyPsiUtil.java:118-129 | the left side is an array access whose index is a string literal with unquoted contents equal to the text |
| MyPsiUtil.StringIndexSelectsOneText | src/main/java/lt/martynassateika/idea/codeigniter/psi/MyPsiUtil.java:118-129 | the test holds for at most one text for a given assignment |
| MyPsiUtil.NoLiteralIndexMatchesNothing | src/main/java/lt/martynassateika/idea/codeigniter/psi/MyPsiUtil.java:118-129 | without a string-literal index (no access, no index, or a computed index) the test fails for every text |
| MyPsiUtil.ArgumentIndexBeyondParameters | src/main/java/lt/martynassateika/idea/codeigniter/psi/MyPsiUtil.java:67-110 | both argument tests are false when the index is not below the parameter count |
| MyPsiUtil.MethodArgumentIsFunctionArgument | src/main/java/lt/martynassateika/idea/codeigniter/psi/MyPsiUtil.java:90-110 | an argument of $x->field->method(...) is also an argument of a function reference named method at the same index |
| MyPsiUtil.ArgumentPositionUnique | src/main/java/lt/martynassateika/idea/codeigniter/psi/MyPsiUtil.java:67-79 | in a well-formed tree an element is an argument at one index of one call name only |
| MyPsiUtil.PositionIsIdentityNotText | src/main/java/lt/martynassateika/idea/codeigniter/psi/MyPsiUtil.java:72 | of two literals with the same text in lang('a', 'a'), only the first is argument 0: position is by identity |
| MyPsiUtil.GetParentOfTypeIsImmediate | src/main/java/lt/martynassateika/idea/codeigniter/psi/MyPsiUtil.java:47-59 | a grandparent of the requested kind is not found: only the immediate parent is inspected |
| LegacyPsiUtil.GetParentOfType | src/lt/martynassateika/idea/codeigniter/psi/MyPsiUtil.java:38-50 | none for a null element or a missing parent; otherwise the parent exactly when it has the requested kind |
| LegacyPsiUtil.SameAsMyPsiUtil | src/lt/martynassateika/idea/codeigniter/psi/MyPsiUtil.java:38-50 | the older parent lookup agrees with the newer one on every input |
| CiConfigUtil.IsConfigFile | src/lt/martynassateika/idea/codeigniter/config/CiConfigUtil.java:51-53 | a config file is one whose containing directory is named "config" |
| CiConfigUtil.IsConfigItemNameElement | src/lt/martynassateika/idea/codeigniter/config/CiConfigUtil.java:61-66 | argument 0 of config_item(), or of the config object's item, set_item or slash_item method |
| CiConfigUtil.ConfigItemNameIsFirstArgument | src/lt/martynassateika/idea/codeigniter/config/CiConfigUtil.java:61-82 | a config item name is argument 0 of a call named item, config_item, set_item or slash_item |
| CiConfigUtil.FindValuesFor | src/lt/martynassateika/idea/codeigniter/config/CiConfigUtil.java:90-117 | the visitor run over every PHP file holding the key returns the config values of the key, skipping assignments nested in another assignment |
| CiConfigUtil.ConfigValuesMember | src/lt/martynassateika/idea/codeigniter/config/CiConfigUtil.java:90-117 | an element is returned exactly when it is an assignment not nested in another assignment, in a PHP file that the index lists under the key, whose left side is an array access with an index whose raw text (quotes included) is the key; the variable's name is not checked |
| CiConfigUtil.ConfigValuesUnknownKey | src/lt/martynassateika/idea/codeigniter/config/CiConfigUtil.java:90-117 | a key missing from the index gives an empty list |
| ConfigFileIndex.InputFilter | src/lt/martynassateika/idea/codeigniter/config/ConfigFileIndex.java:89-91 | only PHP files are indexed |
| ConfigFileIndex.DependsOnFileContent | src/lt/martynassateika/idea/codeigniter/config/ConfigFileIndex.java:94-96 | the index depends on file contents |
| ConfigFileIndex.AccessKey | src/lt/martynassateika/idea/codeigniter/config/ConfigFileIndex.java:112-121 | the key one node gives: the index text of a reached $config access |
| ConfigFileIndex.Map | src/lt/martynassateika/idea/codeigniter/config/ConfigFileIndex.java:103-129 | the indexer's visitor returns the keys of the file: the index texts of its $config[...] accesses that are not inside another array access |
| ConfigFileIndex.KeysInMember | src/lt/martynassateika/idea/codeigniter/config/ConfigFileIndex.java:110-124 | a key is collected exactly when some node gives it as AccessKey, that is, a $config access outside every other array access with that index text |
| ConfigFileIndex.NoKeysOutsideConfigFiles | src/lt/martynassateika/idea/codeigniter/config/ConfigFileIndex.java:103-129 | a file that is not PHP, or not in a config directory, has no keys |
| ConfigFileIndex.AccessKeyShape | src/lt/martynassateika/idea/codeigniter/config/ConfigFileIndex.java:112-121 | proof step for FindValuesForComplete, unfolding AccessKey: a key comes only from an array access not inside another array access, whose first child is a variable named "config" and which has an index; the key is the index's raw text, literal or not, read or write |
| ConfigFileIndex.RepeatedKeysCollapse | src/lt/martynassateika/idea/codeigniter/config/ConfigFileIndex.java:109-119 | a key seen again in the same file adds nothing: keys form a set |
| ConfigFileIndex.FindValuesForComplete | src/lt/martynassateika/idea/codeigniter/config/CiConfigUtil.java:90-117 | when the stored index holds what map computes, every assignment to $config[...] in a config file that is not nested in another assignment is found by findValuesFor under its index text |
| ConfigFileIndex.NestedAccessNotIndexed | src/lt/martynassateika/idea/codeigniter/config/ConfigFileIndex.java:112-121 | `$config['a']['b'] = 1;` gives no key: the outer access has no variable first, and the inner one is not visited |
| ConfigFileIndex.ChainedAssignmentNotFound | src/lt/martynassateika/idea/codeigniter/config/CiConfigUtil.java:97-111 | in `$config['a'] = $config['b'] = 1;` the key "'b'" is indexed but the inner assignment is not found under it |
| CiLanguageUtil.IsLanguageFile | src/lt/martynassateika/idea/codeigniter/language/CiLanguageUtil.java:55-57 | a language file is one whose name ends in "_lang.php" |
| CiLanguageUtil.IsLanguageLineKeyElement | src/lt/martynassateika/idea/codeigniter/language/CiLanguageUtil.java:65-67 | the element is argument 0 of a lang() call |
| CiLanguageUtil.LanguageFileExamples | src/lt/martynassateika/idea/codeigniter/language/CiLanguageUtil.java:55-57 | the language-file test is a case-sensitive test of the file name only |
| CiLanguageUtil.FindTranslationsForKey | src/lt/martynassateika/idea/codeigniter/language/CiLanguageUtil.java:85-115 | the visitor run over every PHP file holding the key returns the translations of the key, skipping assignments nested in another assignment |
| CiLanguageUtil.FindTranslationsFor | src/lt/martynassateika/idea/codeigniter/language/CiLanguageUtil.java:74-78 | the public lookup uses the literal's unquoted contents as the key |
| CiLanguageUtil.TranslationsMember | src/lt/martynassateika/idea/codeigniter/language/CiLanguageUtil.java:85-115 | an element is returned exactly when it is an assignment not nested in another assignment, in a PHP file the index lists under the key, whose left index is a string literal with contents equal to the key |
| CiLanguageUtil.ComputedIndexSkipped | src/lt/martynassateika/idea/codeigniter/language/CiLanguageUtil.java:100 | an assignment whose index is not a string literal is never returned |
| CiLanguageUtil.TranslationsUnknownKey | src/lt/martynassateika/idea/codeigniter/language/CiLanguageUtil.java:85-115 | a key missing from the index gives an empty list |
| CiViewUtil.IsArgumentOfLoadView | src/lt/martynassateika/idea/codeigniter/view/CiViewUtil.java:84-86 | the element is argument argIndex of a method named "view" called on a field named "load" |
| CiViewUtil.GetViewDirectories | src/lt/martynassateika/idea/codeigniter/view/CiViewUtil.java:73-77 | only directories named exactly "views" are returned |
| CiViewUtil.ViewDirectoriesExactly | src/lt/martynassateika/idea/codeigniter/view/CiViewUtil.java:73-77 | an entry is a views directory exactly when it is a directory of the project named "views" |
| CiViewUtil.FindViewFiles | src/lt/martynassateika/idea/codeigniter/view/CiViewUtil.java:49-66 | the loop returns the lookup of the path, with ".php" added when it has no extension, in every views directory |
| CiViewUtil.ViewFilesWithOrWithoutExtension | src/lt/martynassateika/idea/codeigniter/view/CiViewUtil.java:53 | "welcome" and "welcome.php" find the same files |
| CiViewUtil.ViewFilesKeepExtension | src/lt/martynassateika/idea/codeigniter/view/CiViewUtil.java:53 | a path with any extension is looked up unchanged |
| CiViewUtil.ViewFilesBounds | src/lt/martynassateika/idea/codeigniter/view/CiViewUtil.java:55-66 | at most one file per views directory, never a directory, and none without views directories |
| CiModelUtil.IsArgumentOfLoadModel | src/lt/martynassateika/idea/codeigniter/model/CiModelUtil.java:85-87 | the element is argument argIndex of a method named "model" called on a field named "load" |
| CiModelUtil.GetModelDirectories | src/lt/martynassateika/idea/codeigniter/model/CiModelUtil.java:74-78 | only directories named exactly "models" are returned |
| CiModelUtil.ModelDirectoriesExactly | src/lt/martynassateika/idea/codeigniter/model/CiModelUtil.java:74-78 | an entry is a models directory exactly when it is a directory of the project named "models" |
| CiModelUtil.FindModelFiles | src/lt/martynassateika/idea/codeigniter/model/CiModelUtil.java:50-67 | the loop returns the lookup of the path, with ".php" added when it has no extension, in every models directory |
| CiModelUtil.ModelFilesWithOrWithoutExtension | src/lt/martynassateika/idea/codeigniter/model/CiModelUtil.java:53-54 | "foo" and "foo.php" find the same files |
| CiModelUtil.ModelFilesKeepExtension | src/lt/martynassateika/idea/codeigniter/model/CiModelUtil.java:53-54 | a path with any extension is looked up unchanged |
| CiModelUtil.ModelFilesBounds | src/lt/martynassateika/idea/codeigniter/model/CiModelUtil.java:56-67 | at most one file per models directory, never a directory, and none without models directories |
| CiProject.FilesWithKey | src/lt/martynassateika/idea/codeigniter/config/CiConfigUtil.java:92-116 | files are found for a key only when the index has the key |
| CiProject.FilesWithKeyMember | src/lt/martynassateika/idea/codeigniter/config/CiConfigUtil.java:92-116 | a file is a candidate exactly when the index lists it under the key and it is a PHP file |
| CiProject.FileUnder | src/lt/martynassateika/idea/codeigniter/view/CiViewUtil.java:57-64 | a hit in one directory is what findFileByRelativePath gives there, not a directory, and known to the PSI manager |
| CiProject.FilesUnder | src/lt/martynassateika/idea/codeigniter/view/CiViewUtil.java:56-66 | every collected file is a non-directory known to the PSI manager |
| CiProject.FindFilesUnder | src/lt/martynassateika/idea/codeigniter/view/CiViewUtil.java:55-66 | the shared loop of findViewFiles, findModelFiles and findHelperFiles collects the hit of each directory in order |
| CiProject.FilesUnderAtMostOnePerDirectory | src/lt/martynassateika/idea/codeigniter/view/CiViewUtil.java:56-66 | no more files than directories |
| CiProject.FilesUnderMember | src/lt/martynassateika/idea/codeigniter/view/CiViewUtil.java:56-66 | a file is collected exactly when some directory's lookup yields it |
| CiProject.MatchesIn | src/lt/martynassateika/idea/codeigniter/config/CiConfigUtil.java:97-111 | no more matches than visited nodes |
| CiProject.FindMatchingAssignments | src/lt/martynassateika/idea/codeigniter/config/CiConfigUtil.java:92-116 | the callback visits every candidate file (it returns true) and collects the matches of each PHP file in order |
| CiProject.ScanFile | src/lt/martynassateika/idea/codeigniter/config/CiConfigUtil.java:97-111 | the recursive visitor over one file, which does not enter assignments, collects the matching assignments that are not nested in another assignment, in document order |
| CiProject.MatchesInMember | src/lt/martynassateika/idea/codeigniter/config/CiConfigUtil.java:97-111 | a node is collected exactly when it is among the first n, is an assignment not nested in another assignment, and its left side matches the key |
| CiProject.MatchingAssignmentsMember | src/lt/martynassateika/idea/codeigniter/language/CiLanguageUtil.java:85-115 | an element is collected exactly when its file is a candidate PHP file and the element is an assignment of it, not nested in another assignment, whose left side matches the key |
| CiProject.NoMatchesWithoutCandidates | src/lt/martynassateika/idea/codeigniter/config/CiConfigUtil.java:90-117 | no candidate file gives an empty list, not an error |
| VfsUtilCompat.RelativePath | src/lt/martynassateika/idea/codeigniter/compat/VfsUtilCompat.java:49-83 | the relative path the method builds: none across file systems or without a start directory, else the "../" steps to the common ancestor followed by the names below it |
| VfsUtilCompat.FindRelativePath | src/lt/martynassateika/idea/codeigniter/compat/VfsUtilCompat.java:49-83 | the method (parent of a file source, common ancestor, climbing loop, trailing-separator trim) returns the closed-form relative path |
| VfsUtilCompat.ClimbTo | src/lt/martynassateika/idea/codeigniter/compat/VfsUtilCompat.java:69-74 | the loop appends one "..", separator per step from the source up to the common ancestor |
| VfsUtilCompat.UpStepsAsJoin | src/lt/martynassateika/idea/codeigniter/compat/VfsUtilCompat.java:69-74 | n climbing steps are n ".." segments joined with the separator, then one separator |
| VfsUtilCompat.StepsThenNames | src/lt/martynassateika/idea/codeigniter/compat/VfsUtilCompat.java:69-80 | ".." steps followed by the names down to the target, after the trim, are those segments joined; a non-empty result never ends with the separator |
| VfsUtilCompat.RelativePathAsSegments | src/lt/martynassateika/idea/codeigniter/compat/VfsUtilCompat.java:49-83 | the result is one ".." per level from the start directory to the common ancestor, then the names from it to the target, joined, never ending with the separator |
| VfsUtilCompat.RelativePathBelow | src/lt/martynassateika/idea/codeigniter/compat/VfsUtilCompat.java:62-80 | from a directory to an entry below it, the path is the names below the directory joined with the separator |
| VfsUtilCompat.DifferentFileSystems | src/lt/martynassateika/idea/codeigniter/compat/VfsUtilCompat.java:51-53 | files on different file systems have no relative path |
| VfsUtilCompat.SiblingExample | src/lt/martynassateika/idea/codeigniter/compat/VfsUtilCompat.java:49-83 | from app/views/admin to app/models/user.php the path is "../../models/user.php" |
| MyPsiReference.GetElement | src/lt/martynassateika/idea/codeigniter/psi/MyPsiReference.java:47-49 | the element is the usage literal given to the constructor |
| MyPsiReference.Resolve | src/lt/martynassateika/idea/codeigniter/psi/MyPsiReference.java:60-62 | resolve gives the target given to the constructor |
| MyPsiReference.IsReferenceTo | src/lt/martynassateika/idea/codeigniter/psi/MyPsiReference.java:82-84 | whether resolve() is the given element |
| MyPsiReference.NullTargetRefersToNothing | src/lt/martynassateika/idea/codeigniter/psi/MyPsiReference.java:82-84 | a reference built with a null target refers to no element |
| MyPsiReference.RefersToOneTarget | src/lt/martynassateika/idea/codeigniter/psi/MyPsiReference.java:82-84 | a reference refers to one element at most |
| MyPsiReference.RefersToConstructedTarget | src/lt/martynassateika/idea/codeigniter/psi/MyPsiReference.java:82-84 | a reference refers to the target it was built with |
| MyPsiReference.IsSoft | src/lt/martynassateika/idea/codeigniter/psi/MyPsiReference.java:93-95 | every reference is soft |
| MyPsiReference.GetRangeInElement | src/lt/martynassateika/idea/codeigniter/psi/MyPsiReference.java:53-56 | the range starts at 0 and spans the whole literal |
| MyPsiReference.GetCanonicalText | src/lt/martynassateika/idea/codeigniter/psi/MyPsiReference.java:66-68 | the canonical text is empty |
| MyPsiReference.GetVariants | src/lt/martynassateika/idea/codeigniter/psi/MyPsiReference.java:88-90 | there are no variants |
| MyPsiReference.HandleElementRename | src/lt/martynassateika/idea/codeigniter/psi/MyPsiReference.java:71-74 | renaming always fails with an unsupported-operation outcome |
| MyPsiReference.BindToElement | src/lt/martynassateika/idea/codeigniter/psi/MyPsiReference.java:77-79 | binding always fails with an unsupported-operation outcome |
| LanguageFoldingBuilder.GetTranslation | src/lt/martynassateika/idea/codeigniter/language/LanguageFoldingBuilder.java:97-106 | the right-hand text of the first translation of the literal's contents, or none |
| LanguageFoldingBuilder.IsCollapsedByDefault | src/lt/martynassateika/idea/codeigniter/language/LanguageFoldingBuilder.java:115-117 | every region is collapsed by default |
| LanguageFoldingBuilder.GetTranslationOf | src/lt/martynassateika/idea/codeigniter/language/LanguageFoldingBuilder.java:97-106 | computes the translation of a lang key |
| LanguageFoldingBuilder.TranslationComesFromMatchingAssignment | src/lt/martynassateika/idea/codeigniter/language/LanguageFoldingBuilder.java:97-106 | a translation is the unquoted value text of the first assignment whose string index equals the key, in a PHP file the language index lists under it |
| LanguageFoldingBuilder.NoTranslationNoPlaceholder | src/lt/martynassateika/idea/codeigniter/language/LanguageFoldingBuilder.java:99-101 | with no matching assignment there is no translation |
| LanguageFoldingBuilder.CreateDescriptor | src/lt/martynassateika/idea/codeigniter/language/LanguageFoldingBuilder.java:82-88 | the region covers the literal's text range and shows the translation |
| LanguageFoldingBuilder.LangKey | src/lt/martynassateika/idea/codeigniter/language/LanguageFoldingBuilder.java:59-63 | a call qualifies only when it is named "lang", has an argument, and its first argument is a string literal |
| LanguageFoldingBuilder.FoldRegionsSound | src/lt/martynassateika/idea/codeigniter/language/LanguageFoldingBuilder.java:56-73 | each region comes from a qualifying call below the file, folds that call's string literal over its own range and shows the literal's translation |
| LanguageFoldingBuilder.BuildFoldRegions | src/lt/martynassateika/idea/codeigniter/language/LanguageFoldingBuilder.java:48-73 | nothing is folded when the plugin is disabled; otherwise the loop returns the regions of all qualifying calls in order |
| LanguageFoldingBuilder.FoldRegionsComplete | src/lt/martynassateika/idea/codeigniter/language/LanguageFoldingBuilder.java:56-73 | every qualifying call with a translation gets its region |
| SimplifiableViewNameInspection.CheckLiteral | src/lt/martynassateika/idea/codeigniter/view/CodeIgniterSimplifiableViewNameInspection.java:55-68 | a problem is reported exactly for a view-name literal of an enabled project whose unquoted contents have the extension "php"; the fix value followed by ".php" is those contents |
| SimplifiableViewNameInspection.Fixed | src/lt/martynassateika/idea/codeigniter/view/CodeIgniterSimplifiableViewNameInspection.java:95-105 | the fixed tree has the same nodes; only the literal's own text is rewritten (ancestors' text and later offsets are kept, see "Left out") |
| SimplifiableViewNameInspection.ApplyFix | src/lt/martynassateika/idea/codeigniter/view/CodeIgniterSimplifiableViewNameInspection.java:95-105 | requires the problem's element to be a string literal, as the cast does; the literal's node in the array is replaced in place by one with the single-quoted new value (ancestors' text and later offsets are not recomputed, see "Left out") |
| SimplifiableViewNameInspection.FixedContents | src/lt/martynassateika/idea/codeigniter/view/CodeIgniterSimplifiableViewNameInspection.java:99-101 | after the fix the literal's contents are exactly the new value |
| SimplifiableViewNameInspection.FixedKeepsShape | src/lt/martynassateika/idea/codeigniter/view/CodeIgniterSimplifiableViewNameInspection.java:95-105 | the fix leaves every load->view argument test unchanged |
| SimplifiableViewNameInspection.FixThenRecheck | src/lt/martynassateika/idea/codeigniter/view/CodeIgniterSimplifiableViewNameInspection.java:55-105 | after the fix, the literal is reported again exactly when the fix value still has the extension "php" |
| SimplifiableViewNameInspection.NoProblemWithoutPhpExtension | src/lt/martynassateika/idea/codeigniter/view/CodeIgniterSimplifiableViewNameInspection.java:59-61 | a name without an extension, or with another one, is never reported |
| SimplifiableViewNameInspection.FixKeepsViewFiles | src/lt/martynassateika/idea/codeigniter/view/CodeIgniterSimplifiableViewNameInspection.java:60 | when the shortened name has no '.', it loads the same view files as before the fix |
| ReturnedViewNotUsedInspection.IsTrue | src/main/java/lt/martynassateika/idea/codeigniter/view/CodeIgniterReturnedViewNotUsedInspection.java:54 | the constant's name is "true" in any ASCII case |
| ReturnedViewNotUsedInspection.IsBareStatement | src/main/java/lt/martynassateika/idea/codeigniter/view/CodeIgniterReturnedViewNotUsedInspection.java:70-73 | the nearest enclosing method call has a statement as its parent |
| ReturnedViewNotUsedInspection.CheckConstant | src/main/java/lt/martynassateika/idea/codeigniter/view/CodeIgniterReturnedViewNotUsedInspection.java:51-62 | reported, with the message "Returned view data not used", exactly for a true constant of an enabled project that is argument 2 of load->view whose nearest method call is a statement's direct child |
| ReturnedViewNotUsedInspection.NearestMethodIsTheViewCall | src/main/java/lt/martynassateika/idea/codeigniter/view/CodeIgniterReturnedViewNotUsedInspection.java:70-73 | for argument 2 of load->view, the nearest enclosing method call is that view call |
| ReturnedViewNotUsedInspection.ReportedCallIsStatement | src/main/java/lt/martynassateika/idea/codeigniter/view/CodeIgniterReturnedViewNotUsedInspection.java:51-73 | a reported constant's view call is itself a bare statement, so its returned text is discarded |
| ReturnedViewNotUsedInspection.OnlyTrueIsReported | src/main/java/lt/martynassateika/idea/codeigniter/view/CodeIgniterReturnedViewNotUsedInspection.java:54 | a constant other than true is never reported |
| ReturnedViewNotUsedInspection.TrueInAnyCase | src/main/java/lt/martynassateika/idea/codeigniter/view/CodeIgniterReturnedViewNotUsedInspection.java:54 | TRUE and True count as true |
| FileCompletion.Suggestion | src/lt/martynassateika/idea/codeigniter/helper/HelperCompletionProvider.java:63-80 | a visited file is offered only when the provider accepts it and its relative path exists and is non-empty; the text is that path formatted the provider's way, annotated with the convention directory's parent |
| FileCompletion.SuggestionsIn | src/lt/martynassateika/idea/codeigniter/helper/HelperCompletionProvider.java:60-82 | no more suggestions than visited files |
| FileCompletion.CollectSuggestions | src/lt/martynassateika/idea/codeigniter/helper/HelperCompletionProvider.java:56-83 | the loop over convention directories returns the suggestions of each, in order |
| FileCompletion.VisitDirectory | src/lt/martynassateika/idea/codeigniter/helper/HelperCompletionProvider.java:60-82 | the recursive walk visits every entry and never stops early |
| FileCompletion.VisitFile | src/lt/martynassateika/idea/codeigniter/helper/HelperCompletionProvider.java:63-80 | the visitor's step for one file |
| FileCompletion.SuggestionsInMember | src/lt/martynassateika/idea/codeigniter/helper/HelperCompletionProvider.java:60-82 | a suggestion is produced exactly when some visited file yields it |
| FileCompletion.SuggestionsMember | src/lt/martynassateika/idea/codeigniter/helper/HelperCompletionProvider.java:56-83 | a suggestion is produced exactly when some file below some convention directory yields it |
| FileCompletion.RelativePathWalksBack | src/lt/martynassateika/idea/codeigniter/view/CiViewUtil.java:58 | for an entry below a directory, the relative path is the names below the directory, and findFileByRelativePath walks it back to the entry |
| FileCompletion.RelativePathEndsWithName | src/lt/martynassateika/idea/codeigniter/view/ViewCompletionProvider.java:67-77 | the relative path of a file below a directory is non-empty and ends with the file's name |
| KeyCompletion.TypeText | src/lt/martynassateika/idea/codeigniter/language/LanguageCompletionProvider.java:134 | the type text is the owning file's name without its extension |
| KeyCompletion.KeyCompletions | src/lt/martynassateika/idea/codeigniter/language/LanguageCompletionProvider.java:63-73 | at most one suggestion per index key |
| KeyCompletion.AddKeyCompletions | src/lt/martynassateika/idea/codeigniter/language/LanguageCompletionProvider.java:63-73 | the loop over all keys returns the suggestion of each key, in key order |
| KeyCompletion.FirstFileWithKey | src/lt/martynassateika/idea/codeigniter/language/LanguageCompletionProvider.java:64-72 | the callback stops after the first file: the result is the first PHP file holding the key, and none when no PHP file does |
| KeyCompletion.KeySuggestionMeans | src/lt/martynassateika/idea/codeigniter/language/LanguageCompletionProvider.java:64-72 | a key is suggested exactly when some PHP file holds it; the text is the unquoted key and the file holds the key |
| KeyCompletion.KeyCompletionsMember | src/lt/martynassateika/idea/codeigniter/language/LanguageCompletionProvider.java:63-73 | a suggestion is offered exactly when some key yields it |
| LanguageCompletionProvider.IsFirstArgumentInLangCall | src/lt/martynassateika/idea/codeigniter/language/LanguageCompletionProvider.java:82-98 | the position's literal parent is argument 0 of a lang() call, read through the parent chain |
| LanguageCompletionProvider.AddCompletions | src/lt/martynassateika/idea/codeigniter/language/LanguageCompletionProvider.java:54-76 | the provider returns the key suggestions exactly at the first argument of a lang call |
| LanguageCompletionProvider.CompletionsMember | src/lt/martynassateika/idea/codeigniter/language/LanguageCompletionProvider.java:54-76 | something is offered exactly at the first argument of lang, whatever the plugin setting, and then one suggestion per language key held by some PHP file |
| LanguageCompletionProvider.CompletionPlaceIsLanguageKey | src/lt/martynassateika/idea/codeigniter/language/LanguageCompletionProvider.java:82-98 | the caret test holds exactly when the caret's parent literal is a language line key element |
| ConfigCompletionProvider.IsConfigItemNamePosition | src/main/java/lt/martynassateika/idea/codeigniter/config/ConfigCompletionProvider.java:88-95 | the position's literal parent is a config item name |
| ConfigCompletionProvider.AddCompletions | src/main/java/lt/martynassateika/idea/codeigniter/config/ConfigCompletionProvider.java:53-82 | the provider returns the key suggestions exactly at a config item name of an enabled project |
| ConfigCompletionProvider.CompletionsMember | src/main/java/lt/martynassateika/idea/codeigniter/config/ConfigCompletionProvider.java:53-95 | something is offered exactly at a config item name of an enabled project, and then one suggestion per config key held by some PHP file |
| ConfigCompletionProvider.SingleQuotedSuggestionIsTheKey | src/main/java/lt/martynassateika/idea/codeigniter/config/ConfigCompletionProvider.java:65-68 | a key stored as 'name' is offered as name; in single quotes it looks up exactly that key again, and no value found under it is found under the double-quoted name |
| HelperCompletionProvider.ShouldShowSuggestions | src/lt/martynassateika/idea/codeigniter/helper/HelperCompletionProvider.java:91-103 | the plugin is enabled and the position's literal parent names a helper |
| HelperCompletionProvider.AddCompletions | src/lt/martynassateika/idea/codeigniter/helper/HelperCompletionProvider.java:51-85 | the provider returns the helper suggestions exactly at a helper name of an enabled project |
| HelperCompletionProvider.CompletionsMember | src/lt/martynassateika/idea/codeigniter/helper/HelperCompletionProvider.java:51-103 | something is offered exactly at a helper name of an enabled project, and then exactly the suggestions of helper files below helpers directories |
| HelperCompletionProvider.HelperSuggestionResolves | src/lt/martynassateika/idea/codeigniter/helper/HelperCompletionProvider.java:63-76 | a helper file is offered as its relative path without "_helper.php", and loading that name finds the file unless formatting would shorten the name again |
| HelperCompletionProvider.BareSuffixFileOffersEmptyName | src/lt/martynassateika/idea/codeigniter/helper/HelperCompletionProvider.java:67-70 | a file named "_helper.php" directly in a helpers directory is offered as the empty name |
| ViewCompletionProvider.IsViewNameElement | src/lt/martynassateika/idea/codeigniter/view/ViewCompletionProvider.java:93-100 | the position's literal parent is argument 0 of load->view |
| ViewCompletionProvider.AddCompletions | src/lt/martynassateika/idea/codeigniter/view/ViewCompletionProvider.java:53-87 | the provider returns the view suggestions exactly at a view name of an enabled project |
| ViewCompletionProvider.CompletionsMember | src/lt/martynassateika/idea/codeigniter/view/ViewCompletionProvider.java:53-100 | something is offered exactly at a view name of an enabled project, and then exactly the suggestions of non-directory files below views directories |
| ViewCompletionProvider.ViewSuggestionResolves | src/lt/martynassateika/idea/codeigniter/view/ViewCompletionProvider.java:67-77 | every file below a views directory is offered as its relative path, extension included, and that name loads the file when the file name has an extension |
| ModelCompletionProvider.IsModelNameElement | src/main/java/lt/martynassateika/idea/codeigniter/model/ModelCompletionProvider.java:97-104 | the position's literal parent is argument 0 of load->model |
| ModelCompletionProvider.AddCompletions | src/main/java/lt/martynassateika/idea/codeigniter/model/ModelCompletionProvider.java:57-91 | the provider returns the model suggestions exactly at a model name of an enabled project |
| ModelCompletionProvider.CompletionsMember | src/main/java/lt/martynassateika/idea/codeigniter/model/ModelCompletionProvider.java:57-104 | something is offered exactly at a model name of an enabled project, and then exactly the suggestions of PHP files below models directories |
| ModelCompletionProvider.ModelSuggestionResolves | src/main/java/lt/martynassateika/idea/codeigniter/model/ModelCompletionProvider.java:71-84 | a PHP file below a models directory is offered as its lower-cased relative path without ".php"; a lower-case ".php" file with no other '.' in its name loads again |
| ModelCompletionProvider.CapitalisedModelName | src/main/java/lt/martynassateika/idea/codeigniter/model/ModelCompletionProvider.java:78 | "Blog.php" is offered as "blog", which looks up "blog.php", not "Blog.php" |
| LanguageReferenceContributor.TranslationsPassCast | src/lt/martynassateika/idea/codeigniter/language/LanguageReferenceContributor.java:59-62 | the cast of every translation's left side to an array access succeeds |
| LanguageReferenceContributor.GetReferencesByElement | src/lt/martynassateika/idea/codeigniter/language/LanguageReferenceContributor.java:51-70 | the loop appends one reference per translation, in order |
| LanguageReferenceContributor.LanguageReferencesResolve | src/lt/martynassateika/idea/codeigniter/language/LanguageReferenceContributor.java:53-67 | a string literal gets exactly one reference per translation of its raw text, each resolving to the array index of an assignment whose string index equals that text |
| LanguageReferenceContributor.QuotedLiteralMissesItsKey | src/lt/martynassateika/idea/codeigniter/language/LanguageReferenceContributor.java:56-57 | a quoted literal does not find the translation its contents name, because the raw text is used |
| LanguageReferenceContributor.NoLanguageReferences | src/lt/martynassateika/idea/codeigniter/language/LanguageReferenceContributor.java:53-69 | an element that is not a string literal gets no references |
| ConfigReferenceContributor.GetValueReferences | src/main/java/lt/martynassateika/idea/codeigniter/config/ConfigReferenceContributor.java:72-84 | the loop appends one reference per value with a left side, in order |
| ConfigReferenceContributor.MatchesPassCast | src/main/java/lt/martynassateika/idea/codeigniter/config/ConfigReferenceContributor.java:76-77 | the left side of every collected assignment is absent or an array access, so the cast succeeds |
| ConfigReferenceContributor.ConfigValuesPassCast | src/main/java/lt/martynassateika/idea/codeigniter/config/ConfigReferenceContributor.java:76-77 | the cast succeeds for every config value |
| ConfigReferenceContributor.ValueReferencesOfIndexed | src/main/java/lt/martynassateika/idea/codeigniter/config/ConfigReferenceContributor.java:72-84 | values whose left side is an indexed array access give one reference each, targeting that index |
| ConfigReferenceContributor.GetReferencesByElement | src/main/java/lt/martynassateika/idea/codeigniter/config/ConfigReferenceContributor.java:52-67 | computes the references of one element |
| ConfigReferenceContributor.ConfigReferencesResolve | src/main/java/lt/martynassateika/idea/codeigniter/config/ConfigReferenceContributor.java:52-84 | a config item name of an enabled project gets exactly one reference per config value of its text, each resolving to an index whose raw text is that text |
| ConfigReferenceContributor.NoConfigReferences | src/main/java/lt/martynassateika/idea/codeigniter/config/ConfigReferenceContributor.java:56-66 | a disabled project, a non-literal or a literal that is not a config item name gets no references |
| ViewReferenceContributor.ViewReferences | src/main/java/lt/martynassateika/idea/codeigniter/view/ViewReferenceContributor.java:47-63 | a view-name literal of an enabled project gets one reference per view file of its unquoted text, resolving to that file; anything else gets none |
| ViewReferenceContributor.ViewReferenceTargets | src/main/java/lt/martynassateika/idea/codeigniter/view/ViewReferenceContributor.java:54-58 | every reference resolves to a non-directory found from some views directory by the unquoted name with ".php" added when missing |

## Left out

- The host's index storage, its incremental re-indexing, cancellation and concurrent access. The
  index is an input map.
- The PSI manager, `FilenameIndex`, the virtual file system and `PsiTreeUtil`. They are inputs or
  the assumptions listed above.
- `LanguageFileIndex` is not part of this model. The language index is an input map of the same
  shape as the config index.
- The order of `getAllKeys` is not promised by the host. The keys are a sequence parameter.
- The index's name, version, key descriptor and value externaliser are constants with no
  behaviour. Only the input filter (PHP files) and the content dependence are written out, as
  predicates.
- Settings persistence, the settings UI, icons and presentation other than the type text.
  Registration of providers, contributors and inspections, and the `getPlace()` patterns. None
  of these has behaviour beyond wiring.
- The missing-translation and missing-view inspections. They depend on
  `MyPsiReference.referencesElement`, which is not part of this model.
- CiHelperUtil.FormatHelperPath: Java's `$` also matches before a final line terminator. A
  path ending in a newline is not modelled; paths are taken to have none.
- SimplifiableViewNameInspection.ApplyFix: `createFromText` is assumed to succeed. The new value
  is assumed to contain no quote, so the replacement is a plain literal.
- SimplifiableViewNameInspection.ApplyFix and SimplifiableViewNameInspection.Fixed rewrite only
  the literal's node. The host's `replace` also changes the text of every ancestor (the
  parameter list of `$this->load->view('a.php')` becomes "('a')") and moves every later node
  by the change in length. The model keeps those nodes' stored text and start offsets, so their
  `Text` and `RangeOf` after the fix are the ones from before it.
- Null pointer exceptions of the source are not modelled as exceptions:
  - a literal without a parent in `isHelperNameElement` is treated as "no parent";
  - a file without a containing directory in `isConfigFile` is not a config file;
  - a convention directory at a file-system root has no parent to annotate suggestions with.
- Completion result sets are sequences in insertion order. The host's sorting, prefix matching
  and de-duplication are not modelled.
- FileCompletion.RelativePathWalksBack and the three *SuggestionResolves lemmas assume path
  names without '/', "." or "..", because findFileByRelativePath cannot walk such names back.
