/**
 * `ChannelConfig` (server/service/config/config.ts): the per-channel view that
 * resolves the configuration tiers. Every getter is a pure recomputation over
 * the stored configuration and the installed plugins' maps.
 */
module Config {
  import opened Wrappers
  import opened ConfigTypes
  import opened Cards

  datatype DefaultRollConfig = DefaultRollConfig(expression: string, preferCard: bool)

  /** The four parse-rule toggles of the expression preprocessing. */
  datatype ParseRule = ParseRule(
    convertCase: bool,
    detectCardEntry: bool,
    detectDefaultRoll: bool,
    naiveInlineParseRule: bool)

  /** The stored channel configuration, as config.ts reads it. */
  datatype ChannelConfig = ChannelConfig(
    defaultRoll: DefaultRollConfig,
    parseRule: ParseRule,
    embedPlugin: EmbedPlugin,
    customReplyIds: seq<SelectionItem>,
    aliasRollIds: seq<SelectionItem>,
    rollDeciderId: string,
    customTextIds: seq<string>)

  /** The installed plugins' definitions, keyed by namespaced id. */
  datatype PluginMaps = PluginMaps(
    customReply: map<string, CustomReplyConfig>,
    aliasRoll: map<string, AliasRollConfig>,
    customText: map<string, CustomTextConfig>)

  /**
   * `defaultRoll(card)`: the card's own default when the channel prefers it and
   * the card has one, else the configured expression, else `d%`; never empty.
   */
  function DefaultRoll(config: ChannelConfig, card: Option<Sheet>): (r: string)
    ensures r != ""
    ensures config.defaultRoll.preferCard && card.Some? && card.value.defaultRoll != "" ==>
      r == card.value.defaultRoll
    ensures !(config.defaultRoll.preferCard && card.Some? && card.value.defaultRoll != "") ==>
      r == if config.defaultRoll.expression != "" then config.defaultRoll.expression else "d%"
  {
    var fromCard := if config.defaultRoll.preferCard && card.Some? then card.value.defaultRoll else "";
    if fromCard != "" then fromCard
    else if config.defaultRoll.expression != "" then config.defaultRoll.expression
    else "d%"
  }

  // ---------------------------------------------------------------------------
  // Namespaced maps of the embedded tier

  /**
   * `items.reduce((obj, item) => Object.assign(obj, { [`${pluginId}.${item.id}`]: item }), {})`:
   * a left fold, so a later item overwrites an earlier one with the same key.
   */
  function Keyed<T>(pluginId: string, items: seq<T>, localId: T -> string): (m: map<string, T>)
    ensures forall k :: k in m ==> |pluginId| < |k| && k[..|pluginId|] == pluginId
  {
    if items == [] then map[]
    else
      var last := items[|items| - 1];
      Keyed(pluginId, items[..|items| - 1], localId)[NamespacedId(pluginId, localId(last)) := last]
  }

  /** The keys of the fold are exactly the namespaced ids of the items. */
  lemma {:induction false} KeyedKeys<T>(pluginId: string, items: seq<T>, localId: T -> string, k: string)
    ensures k in Keyed(pluginId, items, localId) <==>
      exists i :: 0 <= i < |items| && k == NamespacedId(pluginId, localId(items[i]))
  {
    if items != [] {
      var init := items[..|items| - 1];
      KeyedKeys(pluginId, init, localId, k);
      if exists i :: 0 <= i < |items| && k == NamespacedId(pluginId, localId(items[i])) {
        var i :| 0 <= i < |items| && k == NamespacedId(pluginId, localId(items[i]));
        if i < |init| { assert init[i] == items[i]; }
      }
    }
  }

  /** Every item's namespaced id is a key of the fold. */
  lemma KeyedCovers<T>(pluginId: string, items: seq<T>, localId: T -> string)
    ensures forall i :: 0 <= i < |items| ==> NamespacedId(pluginId, localId(items[i])) in Keyed(pluginId, items, localId)
  {
    forall i | 0 <= i < |items|
      ensures NamespacedId(pluginId, localId(items[i])) in Keyed(pluginId, items, localId)
    {
      KeyedKeys(pluginId, items, localId, NamespacedId(pluginId, localId(items[i])));
    }
  }

  /** An item whose local id no later item repeats is what its key maps to. */
  lemma {:induction false} KeyedLastWins<T>(pluginId: string, items: seq<T>, localId: T -> string, i: nat)
    requires i < |items|
    requires forall j :: i < j < |items| ==> localId(items[j]) != localId(items[i])
    ensures NamespacedId(pluginId, localId(items[i])) in Keyed(pluginId, items, localId)
    ensures Keyed(pluginId, items, localId)[NamespacedId(pluginId, localId(items[i]))] == items[i]
  {
    var last := items[|items| - 1];
    if i < |items| - 1 {
      var init := items[..|items| - 1];
      assert init[i] == items[i];
      KeyedLastWins(pluginId, init, localId, i);
      if NamespacedId(pluginId, localId(last)) == NamespacedId(pluginId, localId(items[i])) {
        NamespacedIdInjective(pluginId, localId(last), localId(items[i]));
      }
    }
  }

  function ReplyLocalId(r: CustomReplyConfig): string { r.id }
  function DeciderLocalId(r: RollDeciderConfig): string { r.id }
  function AliasLocalId(r: AliasRollConfig): string { r.id }

  /** `embedCustomReplyMap`: empty without a list; otherwise every item under its namespaced id, and no other key. */
  function EmbedCustomReplyMap(embed: EmbedPlugin): (m: map<string, CustomReplyConfig>)
    ensures embed.customReply.None? ==> m == map[]
    ensures forall k :: k in m ==> |embed.id| < |k| && k[..|embed.id|] == embed.id
    ensures embed.customReply.Some? ==>
      forall i :: 0 <= i < |embed.customReply.value| ==> NamespacedId(embed.id, embed.customReply.value[i].id) in m
  {
    if embed.customReply.None? then map[]
    else
      KeyedCovers(embed.id, embed.customReply.value, ReplyLocalId);
      Keyed(embed.id, embed.customReply.value, ReplyLocalId)
  }

  /** `embedRollDeciderMap`: empty without a list; otherwise every item under its namespaced id, and no other key. */
  function EmbedRollDeciderMap(embed: EmbedPlugin): (m: map<string, RollDeciderConfig>)
    ensures embed.rollDecider.None? ==> m == map[]
    ensures forall k :: k in m ==> |embed.id| < |k| && k[..|embed.id|] == embed.id
    ensures embed.rollDecider.Some? ==>
      forall i :: 0 <= i < |embed.rollDecider.value| ==> NamespacedId(embed.id, embed.rollDecider.value[i].id) in m
  {
    if embed.rollDecider.None? then map[]
    else
      KeyedCovers(embed.id, embed.rollDecider.value, DeciderLocalId);
      Keyed(embed.id, embed.rollDecider.value, DeciderLocalId)
  }

  /** `embedAliasRollMap`: empty without a list; otherwise every item under its namespaced id, and no other key. */
  function EmbedAliasRollMap(embed: EmbedPlugin): (m: map<string, AliasRollConfig>)
    ensures embed.aliasRoll.None? ==> m == map[]
    ensures forall k :: k in m ==> |embed.id| < |k| && k[..|embed.id|] == embed.id
    ensures embed.aliasRoll.Some? ==>
      forall i :: 0 <= i < |embed.aliasRoll.value| ==> NamespacedId(embed.id, embed.aliasRoll.value[i].id) in m
  {
    if embed.aliasRoll.None? then map[]
    else
      KeyedCovers(embed.id, embed.aliasRoll.value, AliasLocalId);
      Keyed(embed.id, embed.aliasRoll.value, AliasLocalId)
  }

  // ---------------------------------------------------------------------------
  // Selection lists

  /** `embedMap[id] || plugin?.pluginMap[id]` */
  function Lookup<T>(id: string, embed: map<string, T>, plugin: Option<map<string, T>>): Option<T> {
    if id in embed then Some(embed[id])
    else if plugin.Some? && id in plugin.value then Some(plugin.value[id])
    else None
  }

  /** `ids.filter(enabled).map(lookup).filter(found)`, in selection order. */
  function Processors<T>(ids: seq<SelectionItem>, embed: map<string, T>, plugin: Option<map<string, T>>): (r: seq<T>)
    ensures |r| <= |ids|
  {
    if ids == [] then []
    else
      var head := if ids[0].enabled then Lookup(ids[0].id, embed, plugin) else None;
      (if head.Some? then [head.value] else []) + Processors(ids[1..], embed, plugin)
  }

  /** Resolution is per item: the list of a concatenation is the concatenation of the lists. */
  lemma {:induction false} ProcessorsAppend<T>(a: seq<SelectionItem>, b: seq<SelectionItem>, embed: map<string, T>, plugin: Option<map<string, T>>)
    ensures Processors(a + b, embed, plugin) == Processors(a, embed, plugin) + Processors(b, embed, plugin)
  {
    if a == [] {
      assert a + b == b;
    } else {
      assert (a + b)[0] == a[0];
      assert (a + b)[1..] == a[1..] + b;
      ProcessorsAppend(a[1..], b, embed, plugin);
    }
  }

  /**
   * One selection item: disabled items and ids found in neither map contribute
   * nothing; otherwise the embedded definition wins over the plugin's.
   */
  lemma ProcessorsSingle<T>(item: SelectionItem, embed: map<string, T>, plugin: Option<map<string, T>>)
    ensures !item.enabled ==> Processors([item], embed, plugin) == []
    ensures item.enabled && item.id in embed ==> Processors([item], embed, plugin) == [embed[item.id]]
    ensures item.enabled && item.id !in embed && plugin.Some? && item.id in plugin.value ==>
      Processors([item], embed, plugin) == [plugin.value[item.id]]
    ensures item.id !in embed && (plugin.None? || item.id !in plugin.value) ==>
      Processors([item], embed, plugin) == []
  {
    assert [item][1..] == [];
  }

  /** Every resolved definition comes from an enabled item, and every enabled item that resolves is kept. */
  lemma {:induction false} ProcessorsMembers<T>(ids: seq<SelectionItem>, embed: map<string, T>, plugin: Option<map<string, T>>, x: T)
    ensures x in Processors(ids, embed, plugin) <==>
      exists i :: 0 <= i < |ids| && ids[i].enabled && Lookup(ids[i].id, embed, plugin) == Some(x)
  {
    if ids != [] {
      ProcessorsMembers(ids[1..], embed, plugin, x);
      if exists i :: 0 <= i < |ids| && ids[i].enabled && Lookup(ids[i].id, embed, plugin) == Some(x) {
        var i :| 0 <= i < |ids| && ids[i].enabled && Lookup(ids[i].id, embed, plugin) == Some(x);
        if i > 0 { assert ids[1..][i - 1] == ids[i]; }
      }
      if exists i :: 0 <= i < |ids[1..]| && ids[1..][i].enabled && Lookup(ids[1..][i].id, embed, plugin) == Some(x) {
        var i :| 0 <= i < |ids[1..]| && ids[1..][i].enabled && Lookup(ids[1..][i].id, embed, plugin) == Some(x);
        assert ids[i + 1] == ids[1..][i];
      }
    }
  }

  /** `ProcessorsMembers` for every definition at once. */
  lemma ProcessorsMembersAll<T>(ids: seq<SelectionItem>, embed: map<string, T>, plugin: Option<map<string, T>>)
    ensures forall x :: x in Processors(ids, embed, plugin) <==>
      exists i :: 0 <= i < |ids| && ids[i].enabled && Lookup(ids[i].id, embed, plugin) == Some(x)
  {
    forall x {
      ProcessorsMembers(ids, embed, plugin, x);
    }
  }

  /** A selection list whose every item is enabled and names an embedded definition resolves to those definitions, in order. */
  lemma {:induction false} ProcessorsAllResolved<T>(ids: seq<SelectionItem>, embed: map<string, T>, plugin: Option<map<string, T>>, xs: seq<T>)
    requires |ids| == |xs|
    requires forall i :: 0 <= i < |ids| ==> ids[i].enabled && ids[i].id in embed && embed[ids[i].id] == xs[i]
    ensures Processors(ids, embed, plugin) == xs
  {
    if ids != [] {
      ProcessorsAllResolved(ids[1..], embed, plugin, xs[1..]);
      assert xs == [xs[0]] + xs[1..];
    }
  }

  /** The plugins' custom-reply map, when plugins are loaded. */
  function PluginReplies(plugin: Option<PluginMaps>): Option<map<string, CustomReplyConfig>> {
    if plugin.Some? then Some(plugin.value.customReply) else None
  }

  /** The plugins' alias-roll map, when plugins are loaded. */
  function PluginAliases(plugin: Option<PluginMaps>): Option<map<string, AliasRollConfig>> {
    if plugin.Some? then Some(plugin.value.aliasRoll) else None
  }

  /**
   * `customReplyProcessors`: at most one reply per selected id, and a reply is
   * in the list exactly when an enabled selected id finds it, in the embedded tier first.
   */
  function CustomReplyProcessors(config: ChannelConfig, plugin: Option<PluginMaps>): (r: seq<CustomReplyConfig>)
    ensures |r| <= |config.customReplyIds|
    ensures forall x :: x in r <==>
      exists i :: 0 <= i < |config.customReplyIds| && config.customReplyIds[i].enabled &&
        Lookup(config.customReplyIds[i].id, EmbedCustomReplyMap(config.embedPlugin), PluginReplies(plugin)) == Some(x)
  {
    ProcessorsMembersAll(config.customReplyIds, EmbedCustomReplyMap(config.embedPlugin), PluginReplies(plugin));
    Processors(config.customReplyIds, EmbedCustomReplyMap(config.embedPlugin), PluginReplies(plugin))
  }

  /**
   * `aliasRollProcessors`: at most one alias roll per selected id, and an alias
   * roll is in the list exactly when an enabled selected id finds it, in the embedded tier first.
   */
  function AliasRollProcessors(config: ChannelConfig, plugin: Option<PluginMaps>): (r: seq<AliasRollConfig>)
    ensures |r| <= |config.aliasRollIds|
    ensures forall x :: x in r <==>
      exists i :: 0 <= i < |config.aliasRollIds| && config.aliasRollIds[i].enabled &&
        Lookup(config.aliasRollIds[i].id, EmbedAliasRollMap(config.embedPlugin), PluginAliases(plugin)) == Some(x)
  {
    ProcessorsMembersAll(config.aliasRollIds, EmbedAliasRollMap(config.embedPlugin), PluginAliases(plugin));
    Processors(config.aliasRollIds, EmbedAliasRollMap(config.embedPlugin), PluginAliases(plugin))
  }

  /**
   * `rollDecider`: none for an empty id; otherwise the embedded rule set with
   * that id, if any. Plugins are not consulted.
   */
  function RollDecider(config: ChannelConfig): (r: Option<RollDeciderConfig>)
    ensures config.rollDeciderId == "" ==> r.None?
    ensures r.Some? <==> config.rollDeciderId != "" && config.rollDeciderId in EmbedRollDeciderMap(config.embedPlugin)
    ensures r.Some? ==> r.value == EmbedRollDeciderMap(config.embedPlugin)[config.rollDeciderId]
  {
    var currentId := config.rollDeciderId;
    if currentId == "" then None
    else Lookup(currentId, EmbedRollDeciderMap(config.embedPlugin), None)
  }

  // ---------------------------------------------------------------------------
  // Custom texts

  /**
   * The channel's own text tier: `embedPlugin.customText?.[0]`, falling back to
   * the built-in text tier (`getEmbedCustomText()`, passed in).
   */
  function EmbedTextTier(config: ChannelConfig, builtin: CustomTextConfig): CustomTextConfig {
    var texts := config.embedPlugin.customText;
    if texts.Some? && |texts.value| > 0 then texts.value[0] else builtin
  }

  /** The selected plugin tiers, in selection order, without the ids no plugin defines. */
  function PluginTextTiers(ids: seq<string>, plugin: Option<PluginMaps>): (r: seq<CustomTextConfig>)
    ensures |r| <= |ids|
  {
    if ids == [] then []
    else
      (if plugin.Some? && ids[0] in plugin.value.customText then [plugin.value.customText[ids[0]]] else [])
      + PluginTextTiers(ids[1..], plugin)
  }

  /** A tier is selected exactly when some selected id names it in the plugin. */
  lemma {:induction false} PluginTextTiersMembers(ids: seq<string>, plugin: Option<PluginMaps>, t: CustomTextConfig)
    ensures t in PluginTextTiers(ids, plugin) <==>
      plugin.Some? && exists i :: 0 <= i < |ids| && ids[i] in plugin.value.customText && plugin.value.customText[ids[i]] == t
  {
    if ids != [] {
      PluginTextTiersMembers(ids[1..], plugin, t);
      if plugin.Some? && exists i :: 1 <= i < |ids| && ids[i] in plugin.value.customText && plugin.value.customText[ids[i]] == t {
        var i :| 1 <= i < |ids| && ids[i] in plugin.value.customText && plugin.value.customText[ids[i]] == t;
        assert ids[1..][i - 1] == ids[i];
      }
      if plugin.Some? && exists i :: 0 <= i < |ids[1..]| && ids[1..][i] in plugin.value.customText && plugin.value.customText[ids[1..][i]] == t {
        var i :| 0 <= i < |ids[1..]| && ids[1..][i] in plugin.value.customText && plugin.value.customText[ids[1..][i]] == t;
        assert ids[i + 1] == ids[1..][i];
      }
    }
  }

  /** Selection order is kept: the tiers of `a + b` are those of `a`, then those of `b`. */
  lemma {:induction false} PluginTextTiersAppend(a: seq<string>, b: seq<string>, plugin: Option<PluginMaps>)
    ensures PluginTextTiers(a + b, plugin) == PluginTextTiers(a, plugin) + PluginTextTiers(b, plugin)
  {
    if a == [] {
      assert a + b == b;
    } else {
      assert (a + b)[0] == a[0];
      assert (a + b)[1..] == a[1..] + b;
      PluginTextTiersAppend(a[1..], b, plugin);
    }
  }

  /** `tiers.map(t => t.texts).reduce((all, m) => Object.assign(all, m), {})` */
  function MergeTexts(tiers: seq<CustomTextConfig>): (m: map<string, string>)
  {
    if tiers == [] then map[] else MergeTexts(tiers[..|tiers| - 1]) + tiers[|tiers| - 1].texts
  }

  /**
   * Key-by-key override: a key is in the merged map iff some tier defines it,
   * and its value is the one of the last tier that defines it.
   */
  lemma {:induction false} MergeTextsLastWins(tiers: seq<CustomTextConfig>, k: string)
    ensures k in MergeTexts(tiers) <==> exists i :: 0 <= i < |tiers| && k in tiers[i].texts
    ensures k in MergeTexts(tiers) ==>
      exists i :: 0 <= i < |tiers| && k in tiers[i].texts && MergeTexts(tiers)[k] == tiers[i].texts[k] &&
        forall j :: i < j < |tiers| ==> k !in tiers[j].texts
  {
    if tiers != [] {
      var n := |tiers| - 1;
      var init := tiers[..n];
      MergeTextsLastWins(init, k);
      if k in tiers[n].texts {
        assert MergeTexts(tiers)[k] == tiers[n].texts[k];
      } else {
        if exists i :: 0 <= i < |tiers| && k in tiers[i].texts {
          var i :| 0 <= i < |tiers| && k in tiers[i].texts;
          assert init[i] == tiers[i];
        }
        if k in MergeTexts(init) {
          var i :| 0 <= i < |init| && k in init[i].texts && MergeTexts(init)[k] == init[i].texts[k] &&
            forall j :: i < j < |init| ==> k !in init[j].texts;
          assert tiers[i] == init[i];
          forall j | i < j < |tiers| ensures k !in tiers[j].texts {
            if j < n { assert tiers[j] == init[j]; }
          }
        }
      }
    }
  }

  /**
   * `customTextMap`: the embedded tier, then each selected plugin tier, merged
   * key by key; its keys are those of the embedded tier and of the plugin tiers.
   */
  function CustomTextMap(config: ChannelConfig, plugin: Option<PluginMaps>, builtin: CustomTextConfig): (m: map<string, string>)
    ensures forall k :: k in m <==>
      k in EmbedTextTier(config, builtin).texts || exists t :: t in PluginTextTiers(config.customTextIds, plugin) && k in t.texts
  {
    var tiers := [EmbedTextTier(config, builtin)] + PluginTextTiers(config.customTextIds, plugin);
    MergeTextsKeys(tiers);
    MergeTexts(tiers)
  }

  /** The merged map has a key exactly when some tier has it. */
  lemma MergeTextsKeys(tiers: seq<CustomTextConfig>)
    ensures forall k :: k in MergeTexts(tiers) <==> exists t :: t in tiers && k in t.texts
  {
    forall k
      ensures k in MergeTexts(tiers) <==> exists t :: t in tiers && k in t.texts
    {
      MergeTextsLastWins(tiers, k);
      if exists t :: t in tiers && k in t.texts {
        var t :| t in tiers && k in t.texts;
        var i :| 0 <= i < |tiers| && tiers[i] == t;
      }
    }
  }

  /** Merging `x + y` is merging `x`, then overriding with the merge of `y`. */
  lemma {:induction false} MergeTextsAppend(x: seq<CustomTextConfig>, y: seq<CustomTextConfig>)
    ensures MergeTexts(x + y) == MergeTexts(x) + MergeTexts(y)
    decreases |y|
  {
    if y == [] {
      assert x + y == x;
    } else {
      var n := |y| - 1;
      var a, b, c := MergeTexts(x), MergeTexts(y[..n]), y[n].texts;
      assert (x + y)[..|x + y| - 1] == x + y[..n];
      MergeTextsAppend(x, y[..n]);
      assert MergeTexts(x + y) == (a + b) + c;
      MapUnionAssociative(a, b, c);
    }
  }

  lemma MapUnionAssociative(a: map<string, string>, b: map<string, string>, c: map<string, string>)
    ensures (a + b) + c == a + (b + c)
  {
  }

  /** The tier merged last among those defining `k` decides its text. */
  lemma MergeTextsOverride(before: seq<CustomTextConfig>, t: CustomTextConfig, after: seq<CustomTextConfig>, k: string)
    requires k in t.texts
    requires forall u :: u in after ==> k !in u.texts
    ensures k in MergeTexts(before + [t] + after)
    ensures MergeTexts(before + [t] + after)[k] == t.texts[k]
  {
    MergeTextsAppend(before + [t], after);
    MergeTextsKeys(after);
    assert (before + [t])[..|before + [t]| - 1] == before;
  }

  /** The tiers of the ids around a selected id that a plugin defines. */
  lemma PluginTextTiersAt(ids: seq<string>, plugin: Option<PluginMaps>, i: int)
    requires plugin.Some? && 0 <= i < |ids| && ids[i] in plugin.value.customText
    ensures PluginTextTiers(ids, plugin) ==
      PluginTextTiers(ids[..i], plugin) + [plugin.value.customText[ids[i]]] + PluginTextTiers(ids[i + 1..], plugin)
  {
    var pre, mid, post := ids[..i], [ids[i]], ids[i + 1..];
    assert ids == pre + (mid + post);
    PluginTextTiersAppend(pre, mid + post, plugin);
    PluginTextTiersAppend(mid, post, plugin);
    PluginTextTiersOne(ids[i], plugin);
  }

  /** One selected id that the plugin defines gives its tier. */
  lemma PluginTextTiersOne(id: string, plugin: Option<PluginMaps>)
    requires plugin.Some? && id in plugin.value.customText
    ensures PluginTextTiers([id], plugin) == [plugin.value.customText[id]]
  {
    assert [id][1..] == [];
  }

  /** No tier of the ids after `i` defines `k` when no later selected id's tier does. */
  lemma PluginTextTiersAfter(ids: seq<string>, plugin: Option<PluginMaps>, i: int, k: string)
    requires plugin.Some? && 0 <= i < |ids|
    requires forall j :: i < j < |ids| && ids[j] in plugin.value.customText ==> k !in plugin.value.customText[ids[j]].texts
    ensures forall u :: u in PluginTextTiers(ids[i + 1..], plugin) ==> k !in u.texts
  {
    var post := ids[i + 1..];
    forall u | u in PluginTextTiers(post, plugin) ensures k !in u.texts {
      PluginTextTiersMembers(post, plugin, u);
      var j :| 0 <= j < |post| && post[j] in plugin.value.customText && plugin.value.customText[post[j]] == u;
      assert post[j] == ids[i + 1 + j];
    }
  }

  /**
   * Later selected plugins override earlier ones: a key defined by the tier of
   * selected id `ids[i]`, and by no tier of a later selected id, takes that tier's text.
   */
  lemma PluginTextWins(config: ChannelConfig, plugin: Option<PluginMaps>, builtin: CustomTextConfig, k: string, i: int)
    requires plugin.Some? && 0 <= i < |config.customTextIds|
    requires config.customTextIds[i] in plugin.value.customText
    requires k in plugin.value.customText[config.customTextIds[i]].texts
    requires forall j :: i < j < |config.customTextIds| && config.customTextIds[j] in plugin.value.customText ==>
      k !in plugin.value.customText[config.customTextIds[j]].texts
    ensures k in CustomTextMap(config, plugin, builtin)
    ensures CustomTextMap(config, plugin, builtin)[k] == plugin.value.customText[config.customTextIds[i]].texts[k]
  {
    var ids := config.customTextIds;
    PluginTextTiersAt(ids, plugin, i);
    PluginTextTiersAfter(ids, plugin, i, k);
    var before := [EmbedTextTier(config, builtin)] + PluginTextTiers(ids[..i], plugin);
    var t := plugin.value.customText[ids[i]];
    var after := PluginTextTiers(ids[i + 1..], plugin);
    assert [EmbedTextTier(config, builtin)] + PluginTextTiers(ids, plugin) == before + [t] + after;
    MergeTextsOverride(before, t, after, k);
  }

  /** A key that no selected plugin tier defines keeps the embedded tier's text. */
  lemma CustomTextMapEmbedFallback(config: ChannelConfig, plugin: Option<PluginMaps>, builtin: CustomTextConfig, k: string)
    requires k in EmbedTextTier(config, builtin).texts
    requires forall t :: t in PluginTextTiers(config.customTextIds, plugin) ==> k !in t.texts
    ensures k in CustomTextMap(config, plugin, builtin)
    ensures CustomTextMap(config, plugin, builtin)[k] == EmbedTextTier(config, builtin).texts[k]
  {
    var tiers := [EmbedTextTier(config, builtin)] + PluginTextTiers(config.customTextIds, plugin);
    MergeTextsLastWins(tiers, k);
    var i :| 0 <= i < |tiers| && k in tiers[i].texts && MergeTexts(tiers)[k] == tiers[i].texts[k] &&
      forall j :: i < j < |tiers| ==> k !in tiers[j].texts;
  }
}
