/**
 * The configuration records both the channel configuration (config.ts) and the
 * built-in defaults (default.ts) are made of. Plugins contribute records of the
 * same shapes; every id is local to its plugin and namespaced as
 * `<pluginId>.<localId>`.
 */
module ConfigTypes {
  import opened Wrappers

  datatype ReplyItem = ReplyItem(weight: nat, reply: string)

  datatype CustomReplyConfig = CustomReplyConfig(
    id: string, name: string, description: string,
    command: string, trigger: string, items: seq<ReplyItem>)

  datatype AliasRollConfig = AliasRollConfig(
    id: string, name: string, description: string,
    command: string, trigger: string, replacer: string)

  /** A rule: the boolean expression text and the reply shown when it holds. */
  datatype Rule = Rule(expression: string, reply: string)

  datatype RollDeciderConfig = RollDeciderConfig(
    id: string, name: string, description: string,
    worst: Rule, best: Rule, fail: Rule, success: Rule)

  datatype CustomTextConfig = CustomTextConfig(id: string, texts: map<string, string>)

  /** The channel's own tier; each list may be absent in a stored configuration. */
  datatype EmbedPlugin = EmbedPlugin(
    id: string,
    customReply: Option<seq<CustomReplyConfig>>,
    aliasRoll: Option<seq<AliasRollConfig>>,
    rollDecider: Option<seq<RollDeciderConfig>>,
    customText: Option<seq<CustomTextConfig>>)

  /** One `{ id, enabled }` entry of a selection list. */
  datatype SelectionItem = SelectionItem(id: string, enabled: bool)

  /** `${pluginId}.${localId}` */
  function NamespacedId(pluginId: string, localId: string): (r: string)
    ensures |r| == |pluginId| + 1 + |localId|
    ensures r[..|pluginId|] == pluginId && r[|pluginId|] == '.' && r[|pluginId| + 1..] == localId
  {
    pluginId + "." + localId
  }

  /** Within one plugin, distinct local ids give distinct namespaced ids. */
  lemma NamespacedIdInjective(pluginId: string, a: string, b: string)
    requires NamespacedId(pluginId, a) == NamespacedId(pluginId, b)
    ensures a == b
  {
    assert a == NamespacedId(pluginId, a)[|pluginId| + 1..];
  }
}
