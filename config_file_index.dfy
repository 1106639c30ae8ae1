/**
 * The config key index (src/lt/.../config/ConfigFileIndex.java): for a PHP config file, the raw
 * index text of every `$config[...]` access, read or written; for any other file, nothing.
 * The index is key-only, so a file's keys form a set.
 */
module ConfigFileIndex {
  import opened Wrappers
  import opened Vfs
  import opened Psi
  import opened CiProject
  import opened CiConfigUtil
  import opened Seqs

  const Key: string := "codeigniter.config.file.index"
  const Version: nat := 0
  const ConfigVariableName: string := "config"

  /** `getInputFilter`: PHP files only. */
  predicate InputFilter(p: Project, f: VFile) {
    IsPhpFile(p.vfs, f)
  }

  /** `dependsOnFileContent`. */
  predicate DependsOnFileContent() {
    true
  }

  /**
   * The key one node contributes: an array access the visitor reaches, whose first child is a
   * variable named exactly "config" and which has an index, gives that index's raw text. The
   * handler for array accesses does not call `super`, so an access inside another one (the inner
   * `$config['a']` of `$config['a']['b']`, or one inside an index) is never visited.
   */
  function AccessKey(t: Tree, id: Id): Option<string> {
    if HasKind(t, id, ArrayAccess) && NotInsideKind(t, id, ArrayAccess) then
      match FirstChild(t, id)
      case None => None
      case Some(base) =>
        if HasKind(t, base, Variable) && t[base].name == ConfigVariableName then
          match ArrayIndexOf(t, id)
          case None => None
          case Some(index) => Some(Text(t, index))
        else None
    else None
  }

  /** The key each node contributes, in id order. */
  function AccessKeys(t: Tree): seq<Option<string>> {
    seq(|t|, id requires 0 <= id => AccessKey(t, id))
  }

  /** The keys of the first `n` nodes. */
  function KeysIn(t: Tree, n: nat): set<string>
    requires n <= |t|
  {
    SomesSet(AccessKeys(t)[..n])
  }

  /** What `map` returns for a file. */
  function IndexedKeys(p: Project, f: VFile): set<string> {
    if IsPhpPsiFile(p, f) && IsConfigFile(f) then KeysIn(p.psi[f], |p.psi[f]|) else {}
  }

  /** `MyDataIndexer.map`: the recursive visitor putting each key into the map. */
  method Map(p: Project, f: VFile) returns (keys: set<string>)
    ensures keys == IndexedKeys(p, f)
  {
    keys := {};
    if IsPhpPsiFile(p, f) && IsConfigFile(f) {
      var t := p.psi[f];
      var id := 0;
      while id < |t|
        invariant 0 <= id <= |t|
        invariant keys == KeysIn(t, id)
      {
        SomesSetStep(AccessKeys(t), id);
        var key := AccessKey(t, id);
        if key.Some? {
          keys := keys + {key.value};
        }
        id := id + 1;
      }
    }
  }

  /** A key is indexed exactly when some node of the file is a `$config[...]` access with that index text. */
  lemma KeyOfNode(t: Tree, n: nat, id: Id)
    requires id < n <= |t| && AccessKey(t, id).Some?
    ensures AccessKey(t, id).value in KeysIn(t, n)
  {
    var keys := AccessKeys(t)[..n];
    assert keys[id] == AccessKeys(t)[id] == AccessKey(t, id);
  }

  lemma NodeOfKey(t: Tree, n: nat, k: string) returns (id: nat)
    requires n <= |t| && k in KeysIn(t, n)
    ensures id < n && AccessKey(t, id) == Some(k)
  {
    var keys := AccessKeys(t)[..n];
    id :| 0 <= id < |keys| && keys[id].Some? && keys[id].value == k;
    assert keys[id] == AccessKeys(t)[id];
  }

  lemma KeysInMember(t: Tree, n: nat, k: string)
    requires n <= |t|
    ensures k in KeysIn(t, n) <==> exists id: nat :: id < n && AccessKey(t, id) == Some(k)
  {
    if k in KeysIn(t, n) {
      var id := NodeOfKey(t, n, k);
    }
    if exists id: nat :: id < n && AccessKey(t, id) == Some(k) {
      var id: nat :| id < n && AccessKey(t, id) == Some(k);
      KeyOfNode(t, n, id);
    }
  }

  /** Files that are not PHP files, or not config files, contribute no key. */
  lemma NoKeysOutsideConfigFiles(p: Project, f: VFile)
    requires !IsPhpPsiFile(p, f) || !IsConfigFile(f)
    ensures IndexedKeys(p, f) == {}
  {
  }

  /**
   * Only reached accesses on a variable named exactly "config" that carry an index contribute;
   * reads count as much as writes, since every reached array access is visited.
   */
  lemma AccessKeyShape(t: Tree, id: Id)
    requires AccessKey(t, id).Some?
    ensures HasKind(t, id, ArrayAccess) && NotInsideKind(t, id, ArrayAccess)
    ensures FirstChild(t, id).Some? && HasKind(t, FirstChild(t, id).value, Variable)
    ensures t[FirstChild(t, id).value].name == ConfigVariableName
    ensures ArrayIndexOf(t, id).Some? && AccessKey(t, id) == Some(Text(t, ArrayIndexOf(t, id).value))
  {
  }

  /** Two accesses with the same index text give one key. */
  lemma RepeatedKeysCollapse(t: Tree, i: Id, j: Id)
    requires i < j < |t| && AccessKey(t, i).Some? && AccessKey(t, i) == AccessKey(t, j)
    ensures KeysIn(t, j + 1) == KeysIn(t, j)
  {
    KeysInMember(t, j, AccessKey(t, i).value);
    SomesSetStep(AccessKeys(t), j);
  }

  /** The stored index lists every file under every key `map` extracts from it. */
  ghost predicate IndexHolds(p: Project) {
    forall f, k :: k in IndexedKeys(p, f) ==> k in p.configIndex && f in p.configIndex[k]
  }

  /**
   * With the stored index built by `map`, `findValuesFor` finds every assignment to
   * `$config[<index>]` in a PHP config file when asked for the index's raw text, provided the
   * lookup's visitor reaches the assignment (it is not nested in another assignment).
   */
  lemma FindValuesForComplete(p: Project, f: VFile, assignment: Id, access: Id, index: Id)
    requires IndexHolds(p) && IsPhpPsiFile(p, f) && IsConfigFile(f)
    requires HasKind(p.psi[f], assignment, Assignment) && NotInsideKind(p.psi[f], assignment, Assignment)
    requires AssignedVariable(p.psi[f], assignment) == Some(access)
    requires AccessKey(p.psi[f], access).Some? && ArrayIndexOf(p.psi[f], access) == Some(index)
    ensures Element(f, assignment) in ConfigValues(p, Text(p.psi[f], index))
  {
    var t := p.psi[f];
    var k := Text(t, index);
    AccessKeyShape(t, access);
    KeyOfNode(t, |t|, access);
    assert k in IndexedKeys(p, f);
    ConfigValuesMember(p, k, Element(f, assignment));
  }

  /** The tree of `$config['a']['b'] = 1;`: the outer access indexes the inner one. */
  function NestedAccess(): Tree {
    [ Node(PhpFileKind, "", "$config['a']['b'] = 1;", 0, None, [1]),
      Node(Statement, "", "$config['a']['b'] = 1;", 0, Some(0), [2]),
      Node(Assignment, "", "$config['a']['b'] = 1", 0, Some(1), [3, 9]),
      Node(ArrayAccess, "", "$config['a']['b']", 0, Some(2), [4, 7]),
      Node(ArrayAccess, "", "$config['a']", 0, Some(3), [5, 6]),
      Node(Variable, "config", "$config", 0, Some(4), []),
      Node(ArrayIndex, "", "'a'", 8, Some(4), []),
      Node(ArrayIndex, "", "'b'", 13, Some(3), [8]),
      Node(StringLiteral, "", "'b'", 13, Some(7), []),
      Node(OtherKind, "", "1", 20, Some(2), []) ]
  }

  /** The outer access of `$config['a']['b']` is visited, but its first child is not a variable. */
  lemma NestedOuterAccessNoKey()
    ensures AccessKey(NestedAccess(), 3) == None
  {
    var t := NestedAccess();
    assert FirstChild(t, 3) == Some(4);
  }

  /** The inner access of `$config['a']['b']` lies inside the outer one and is never visited. */
  lemma NestedInnerAccessNotVisited()
    ensures !NotInsideKind(NestedAccess(), 4, ArrayAccess) && AccessKey(NestedAccess(), 4) == None
  {
    var t := NestedAccess();
    assert ParentOf(t, 4) == Some(3);
  }

  /** No node of `$config['a']['b'] = 1;` gives a key: only the two accesses could. */
  lemma NestedAccessNodeNoKey(id: Id)
    ensures AccessKey(NestedAccess(), id) == None
  {
    var t := NestedAccess();
    if id == 3 {
      NestedOuterAccessNoKey();
    } else if id == 4 {
      NestedInnerAccessNotVisited();
    } else if id < |t| {
      assert t[id].kind != ArrayAccess;
    }
  }

  /** `$config['a']['b'] = 1;` contributes no key at all. */
  lemma NestedAccessNotIndexed()
    ensures KeysIn(NestedAccess(), |NestedAccess()|) == {}
  {
    var t := NestedAccess();
    forall k | k in KeysIn(t, |t|)
      ensures false
    {
      var id := NodeOfKey(t, |t|, k);
      NestedAccessNodeNoKey(id);
    }
  }

  /** The tree of `$config['a'] = $config['b'] = 1;`: the inner assignment is the outer one's value. */
  function ChainedAssignment(): Tree {
    [ Node(PhpFileKind, "", "$config['a'] = $config['b'] = 1;", 0, None, [1]),
      Node(Statement, "", "$config['a'] = $config['b'] = 1;", 0, Some(0), [2]),
      Node(Assignment, "", "$config['a'] = $config['b'] = 1", 0, Some(1), [3, 6]),
      Node(ArrayAccess, "", "$config['a']", 0, Some(2), [4, 5]),
      Node(Variable, "config", "$config", 0, Some(3), []),
      Node(ArrayIndex, "", "'a'", 8, Some(3), []),
      Node(Assignment, "", "$config['b'] = 1", 15, Some(2), [7, 10]),
      Node(ArrayAccess, "", "$config['b']", 15, Some(6), [8, 9]),
      Node(Variable, "config", "$config", 15, Some(7), []),
      Node(ArrayIndex, "", "'b'", 23, Some(7), []),
      Node(OtherKind, "", "1", 30, Some(6), []) ]
  }

  /** The inner access `$config['b']` is visited by the indexer: only assignments enclose it. */
  lemma ChainedInnerAccessVisited()
    ensures NotInsideKind(ChainedAssignment(), 7, ArrayAccess)
  {
    var t := ChainedAssignment();
    assert ParentOf(t, 1) == Some(0) && NotInsideKind(t, 1, ArrayAccess);
    assert ParentOf(t, 2) == Some(1) && NotInsideKind(t, 2, ArrayAccess);
    assert ParentOf(t, 6) == Some(2) && NotInsideKind(t, 6, ArrayAccess);
    assert ParentOf(t, 7) == Some(6);
  }

  /** The indexer records the inner access's index text. */
  lemma ChainedInnerAccessKey()
    ensures AccessKey(ChainedAssignment(), 7) == Some("'b'")
  {
    var t := ChainedAssignment();
    ChainedInnerAccessVisited();
    assert FirstChild(t, 7) == Some(8) && ArrayIndexOf(t, 7) == Some(9);
  }

  /** The inner assignment assigns to `$config['b']`, but it lies inside the outer assignment. */
  lemma ChainedInnerAssignmentNotVisited()
    ensures LeftIndexText(ChainedAssignment(), 6) == Some("'b'")
    ensures !NotInsideKind(ChainedAssignment(), 6, Assignment)
  {
    var t := ChainedAssignment();
    assert ParentOf(t, 6) == Some(2);
    assert AssignedVariable(t, 6) == Some(7) && ArrayIndexOf(t, 7) == Some(9);
  }

  /**
   * In `$config['a'] = $config['b'] = 1;` the index holds "'b'", yet the lookup for "'b'" does not
   * find the inner assignment: its visitor stops at the outer one, whose index is "'a'".
   */
  lemma ChainedAssignmentNotFound(f: VFile)
    ensures "'b'" in KeysIn(ChainedAssignment(), |ChainedAssignment()|)
    ensures LeftIndexText(ChainedAssignment(), 6) == Some("'b'")
    ensures Element(f, 6) !in MatchesIn(f, ChainedAssignment(), |ChainedAssignment()|, IndexTextEqual("'b'"))
  {
    var t := ChainedAssignment();
    ChainedInnerAccessKey();
    KeyOfNode(t, |t|, 7);
    ChainedInnerAssignmentNotVisited();
    MatchesInMember(f, t, |t|, IndexTextEqual("'b'"), Element(f, 6));
  }
}
