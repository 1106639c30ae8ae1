/**
 * Completion of config item names inside `config_item(...)`, `$this->config->item(...)`,
 * `set_item` and `slash_item` (src/main/java/.../config/ConfigCompletionProvider.java).
 */
module ConfigCompletionProvider {
  import opened Wrappers
  import opened Strings
  import opened Psi
  import opened MyPsiUtil
  import opened CiProject
  import opened CiConfigUtil
  import opened KeyCompletion

  /** `isConfigItemNameElement`: the caret's parent literal names a config item. */
  predicate IsConfigItemNamePosition(t: Tree, position: Option<Id>) {
    match GetParentOfType(t, position, StringLiteralExpressionClass)
    case None => false
    case Some(literal) => IsConfigItemNameElement(t, Some(literal))
  }

  /** `addCompletions`: one suggestion per config key held by some PHP file. */
  function Completions(enabled: bool, p: Project, t: Tree, position: Option<Id>, allKeys: seq<string>): seq<KeyLookup> {
    if position.Some? && enabled && IsConfigItemNamePosition(t, position) then
      KeyCompletions(p, p.configIndex, allKeys)
    else []
  }

  method AddCompletions(enabled: bool, p: Project, t: Tree, position: Option<Id>, allKeys: seq<string>) returns (r: seq<KeyLookup>)
    ensures r == Completions(enabled, p, t, position, allKeys)
  {
    r := [];
    if position.Some? && enabled && IsConfigItemNamePosition(t, position) {
      r := AddKeyCompletions(p, p.configIndex, allKeys);
    }
  }

  /**
   * A config key is stored with its quotes (`$config['base_url']` gives "'base_url'"); it is
   * offered without them, and written back between single quotes it looks up exactly the key it
   * came from. Between double quotes it is another key, and no value of the single-quoted key
   * is found under it.
   */
  lemma SingleQuotedSuggestionIsTheKey(p: Project, name: string)
    requires KeySuggestion(p, p.configIndex, "'" + name + "'").Some?
    ensures KeySuggestion(p, p.configIndex, "'" + name + "'").value.lookup == name
    ensures ConfigValues(p, "'" + KeySuggestion(p, p.configIndex, "'" + name + "'").value.lookup + "'")
         == ConfigValues(p, "'" + name + "'")
    ensures forall e :: e in ConfigValues(p, "'" + name + "'") ==> e !in ConfigValues(p, "\"" + name + "\"")
  {
    UnquoteQuoted('\'', name);
    assert "'" + name + "'" == ['\''] + name + ['\''];
    assert ("\"" + name + "\"")[0] != ("'" + name + "'")[0];
    forall e | e in ConfigValues(p, "'" + name + "'")
      ensures e !in ConfigValues(p, "\"" + name + "\"")
    {
      ConfigValuesMember(p, "'" + name + "'", e);
      ConfigValuesMember(p, "\"" + name + "\"", e);
    }
  }

  /**
   * Something is offered exactly at a config-item position of an enabled project, and then one
   * suggestion for each key that some PHP file holds.
   */
  lemma CompletionsMember(enabled: bool, p: Project, t: Tree, position: Option<Id>, allKeys: seq<string>, s: KeyLookup)
    ensures s in Completions(enabled, p, t, position, allKeys) <==>
      && (position.Some? && enabled && IsConfigItemNamePosition(t, position))
      && exists k :: k in allKeys && KeySuggestion(p, p.configIndex, k) == Some(s)
  {
    if position.Some? && enabled && IsConfigItemNamePosition(t, position) {
      KeyCompletionsMember(p, p.configIndex, allKeys, s);
    }
  }
}
