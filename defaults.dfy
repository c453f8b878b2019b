/**
 * The built-in configuration (server/service/config/default.ts): the embedded
 * custom replies and roll-decider rule sets, the initial channel configuration
 * built from them, and the in-place migration of a version-1 configuration.
 *
 * This file and config.ts come from different revisions: here the stored
 * configuration has a `defaultRoll` string, a `rollDeciderIds` list, a
 * `version` and a `lastModified` stamp, and no parse rules, alias-roll ids or
 * custom-text ids. `StoredConfig` is this file's shape; the lemmas that tie it
 * to `Config.ChannelConfig` only use the fields both shapes share.
 */
module Defaults {
  import opened Wrappers
  import opened ConfigTypes
  import Config

  const EmbedPluginId: string := "io.paotuan.embed"
  const ConfigVersion: int := 2

  /** The stored channel configuration, as default.ts writes it. */
  datatype StoredConfig = StoredConfig(
    version: int,
    defaultRoll: string,
    customReplyIds: seq<SelectionItem>,
    rollDeciderId: string,
    rollDeciderIds: seq<string>,
    embedPlugin: EmbedPlugin,
    lastModified: int)

  /** `getEmbedCustomReply()` */
  function EmbedCustomReplies(): seq<CustomReplyConfig> {
    [JrrpReply, CocCardReply, GachaReply, FuduReply]
  }

  const JrrpReply := CustomReplyConfig("jrrp", "今日运势", "使用 /jrrp 查询今日运势", "jrrp", "exact",
        [ReplyItem(1, "{{at}}今天的幸运指数是 [[d100]] !")])
  const CocCardReply := CustomReplyConfig("coccardrand", "COC 人物作成", "使用 /coc 随机人物作成", "coc", "exact",
        [ReplyItem(1, "{{at}}人物作成：\n力量[[3d6*5]] 体质[[3d6*5]] 体型[[(2d6+6)*5]] 敏捷[[3d6*5]] 外貌[[3d6*5]] 智力[[(2d6+6)*5]] 意志[[3d6*5]] 教育[[(2d6+6)*5]] 幸运[[3d6*5]]")])
  const GachaReply := CustomReplyConfig("gacha", "简单抽卡", "使用不同权重进行抽卡的例子", "抽卡", "exact",
        [ReplyItem(2, "{{at}}抽到了 ★★★★★★"), ReplyItem(8, "{{at}}抽到了 ★★★★★"),
         ReplyItem(48, "{{at}}抽到了 ★★★★"), ReplyItem(42, "{{at}}抽到了 ★★★")])
  const FuduReply := CustomReplyConfig("fudu", "复读机", "使用正则匹配的例子", "复读\\s*(?<content>.+)", "regex",
        [ReplyItem(1, "{{content}}")])

  /** The four outcome rules shared by the rule sets whose fail/success compare `roll` with `targetValue` from above. */
  function CocRules(worst: string, best: string): (Rule, Rule, Rule, Rule) {
    (Rule(worst, "大失败"), Rule(best, "大成功"),
     Rule("roll > targetValue", "> {{targetValue}} 失败"), Rule("roll <= targetValue", "≤ {{targetValue}} 成功"))
  }

  function Decider(id: string, name: string, description: string, rules: (Rule, Rule, Rule, Rule)): RollDeciderConfig {
    RollDeciderConfig(id, name, description, rules.0, rules.1, rules.2, rules.3)
  }

  /** `getEmbedRollDecider()` */
  function EmbedRollDeciders(): seq<RollDeciderConfig> {
    [Coc0Decider, Dnd0Decider, Coc1Decider, Coc2Decider, Coc3Decider, Coc4Decider, Coc5Decider, Coc6Decider]
  }

  const Coc0Decider := Decider("coc0", "COC默认规则", "出1大成功；不满50出96-100大失败，满50出100大失败",
        CocRules("(baseValue < 50 && roll > 95) || (baseValue >= 50 && roll == 100)", "roll == 1"))
  const Dnd0Decider := Decider("dnd0", "DND默认规则", "大于等于DC成功，小于DC失败",
        (Rule("false", "大失败"), Rule("false", "大成功"),
         Rule("roll < targetValue", "< {{targetValue}} 失败"), Rule("roll >= targetValue", "≥ {{targetValue}} 成功")))
  const Coc1Decider := Decider("coc1", "COC规则1", "不满50出1大成功，满50出1-5大成功；不满50出96-100大失败，满50出100大失败",
        CocRules("(baseValue < 50 && roll > 95) || (baseValue >= 50 && roll == 100)",
          "(baseValue < 50 && roll == 1) || (baseValue >= 50 && roll <= 5)"))
  const Coc2Decider := Decider("coc2", "COC规则2", "出1-5且<=成功率大成功；出100或出96-99且>成功率大失败",
        CocRules("roll == 100 || (roll > 95 && roll > targetValue)", "roll <= 5 && roll <= targetValue"))
  const Coc3Decider := Decider("coc3", "COC规则3", "出1-5大成功；出96-100大失败",
        CocRules("roll > 95", "roll <= 5"))
  const Coc4Decider := Decider("coc4", "COC规则4", "出1-5且<=成功率/10大成功；不满50出>=96+成功率/10大失败，满50出100大失败",
        CocRules("(baseValue < 50 && roll >= 96 + targetValue / 10) || (baseValue >= 50 && roll == 100)",
          "roll <= 5 && roll <= targetValue / 10"))
  const Coc5Decider := Decider("coc5", "COC规则5", "出1-2且<成功率/5大成功；不满50出96-100大失败，满50出99-100大失败",
        CocRules("(baseValue < 50 && roll >= 96) || (baseValue >= 50 && roll >= 99)", "roll <= 2 && roll < targetValue / 5"))
  const Coc6Decider := Decider("coc6", "COC规则6", "个位数=十位数且<=成功率则大成功；个位数=十位数且>成功率则大失败",
        CocRules("roll % 11 == 0 && roll > targetValue", "roll % 11 == 0 && roll <= targetValue"))

  /** `rollDeciders.map(item => `${embedPluginId}.${item.id}`)` */
  function DeciderIds(deciders: seq<RollDeciderConfig>): (r: seq<string>)
    ensures |r| == |deciders|
  {
    seq(|deciders|, i requires 0 <= i < |deciders| => NamespacedId(EmbedPluginId, deciders[i].id))
  }

  /** `customReplies.map(item => ({ id: `${embedPluginId}.${item.id}`, enabled: true }))` */
  function ReplySelection(replies: seq<CustomReplyConfig>): (r: seq<SelectionItem>)
    ensures |r| == |replies|
  {
    seq(|replies|, i requires 0 <= i < |replies| => SelectionItem(NamespacedId(EmbedPluginId, replies[i].id), true))
  }

  /** `getInitialDefaultConfig()` */
  function GetInitialDefaultConfig(): (c: StoredConfig)
    ensures c.version == 2 && c.defaultRoll == "d100" && c.lastModified == 0
    ensures c.embedPlugin == EmbedPlugin("io.paotuan.embed", Some(EmbedCustomReplies()), None, Some(EmbedRollDeciders()), None)
    ensures |c.rollDeciderIds| == |EmbedRollDeciders()| > 0
    ensures c.rollDeciderId == c.rollDeciderIds[0]
    ensures forall i :: 0 <= i < |c.rollDeciderIds| ==> c.rollDeciderIds[i] == NamespacedId(EmbedPluginId, EmbedRollDeciders()[i].id)
    ensures |c.customReplyIds| == |EmbedCustomReplies()|
    ensures forall i :: 0 <= i < |c.customReplyIds| ==>
      c.customReplyIds[i] == SelectionItem(NamespacedId(EmbedPluginId, EmbedCustomReplies()[i].id), true)
  {
    var customReplies := EmbedCustomReplies();
    var rollDeciders := EmbedRollDeciders();
    StoredConfig(
      ConfigVersion,
      "d100",
      ReplySelection(customReplies),
      NamespacedId(EmbedPluginId, rollDeciders[0].id),
      DeciderIds(rollDeciders),
      EmbedPlugin(EmbedPluginId, Some(customReplies), None, Some(rollDeciders), None),
      0)
  }

  /** The local ids of the embedded replies, in order. */
  lemma ReplyLocalIds()
    ensures |EmbedCustomReplies()| == 4
    ensures forall i :: 0 <= i < 4 ==> EmbedCustomReplies()[i].id == ["jrrp", "coccardrand", "gacha", "fudu"][i]
  {
  }

  /** The local ids of the embedded rule sets, in order. */
  lemma DeciderLocalIds()
    ensures |EmbedRollDeciders()| == 8
    ensures forall i :: 0 <= i < 8 ==>
      EmbedRollDeciders()[i].id == ["coc0", "dnd0", "coc1", "coc2", "coc3", "coc4", "coc5", "coc6"][i]
  {
  }

  /** The identifier lists of the initial configuration, written out. */
  lemma InitialIdLists()
    ensures GetInitialDefaultConfig().rollDeciderId == "io.paotuan.embed.coc0"
    ensures GetInitialDefaultConfig().rollDeciderIds == [
      "io.paotuan.embed.coc0", "io.paotuan.embed.dnd0", "io.paotuan.embed.coc1", "io.paotuan.embed.coc2",
      "io.paotuan.embed.coc3", "io.paotuan.embed.coc4", "io.paotuan.embed.coc5", "io.paotuan.embed.coc6"]
    ensures GetInitialDefaultConfig().customReplyIds == [
      SelectionItem("io.paotuan.embed.jrrp", true), SelectionItem("io.paotuan.embed.coccardrand", true),
      SelectionItem("io.paotuan.embed.gacha", true), SelectionItem("io.paotuan.embed.fudu", true)]
  {
    DeciderLocalIds();
    ReplyLocalIds();
    var c := GetInitialDefaultConfig();
    DeciderIdsWrittenOut(c.rollDeciderIds);
    ReplyIdsWrittenOut(c.customReplyIds);
  }

  lemma DeciderIdsWrittenOut(xs: seq<string>)
    requires |xs| == 8
    requires forall i :: 0 <= i < 8 ==>
      xs[i] == NamespacedId(EmbedPluginId, ["coc0", "dnd0", "coc1", "coc2", "coc3", "coc4", "coc5", "coc6"][i])
    ensures xs == [
      "io.paotuan.embed.coc0", "io.paotuan.embed.dnd0", "io.paotuan.embed.coc1", "io.paotuan.embed.coc2",
      "io.paotuan.embed.coc3", "io.paotuan.embed.coc4", "io.paotuan.embed.coc5", "io.paotuan.embed.coc6"]
  {
    var locals := ["coc0", "dnd0", "coc1", "coc2", "coc3", "coc4", "coc5", "coc6"];
    assert xs[0] == NamespacedId(EmbedPluginId, locals[0]) == "io.paotuan.embed.coc0";
    assert xs[1] == NamespacedId(EmbedPluginId, locals[1]) == "io.paotuan.embed.dnd0";
    assert xs[2] == NamespacedId(EmbedPluginId, locals[2]) == "io.paotuan.embed.coc1";
    assert xs[3] == NamespacedId(EmbedPluginId, locals[3]) == "io.paotuan.embed.coc2";
    assert xs[4] == NamespacedId(EmbedPluginId, locals[4]) == "io.paotuan.embed.coc3";
    assert xs[5] == NamespacedId(EmbedPluginId, locals[5]) == "io.paotuan.embed.coc4";
    assert xs[6] == NamespacedId(EmbedPluginId, locals[6]) == "io.paotuan.embed.coc5";
    assert xs[7] == NamespacedId(EmbedPluginId, locals[7]) == "io.paotuan.embed.coc6";
  }

  lemma ReplyIdsWrittenOut(xs: seq<SelectionItem>)
    requires |xs| == 4
    requires forall i :: 0 <= i < 4 ==>
      xs[i] == SelectionItem(NamespacedId(EmbedPluginId, ["jrrp", "coccardrand", "gacha", "fudu"][i]), true)
    ensures xs == [
      SelectionItem("io.paotuan.embed.jrrp", true), SelectionItem("io.paotuan.embed.coccardrand", true),
      SelectionItem("io.paotuan.embed.gacha", true), SelectionItem("io.paotuan.embed.fudu", true)]
  {
    var locals := ["jrrp", "coccardrand", "gacha", "fudu"];
    assert xs[0].id == NamespacedId(EmbedPluginId, locals[0]) == "io.paotuan.embed.jrrp";
    assert xs[1].id == NamespacedId(EmbedPluginId, locals[1]) == "io.paotuan.embed.coccardrand";
    assert xs[2].id == NamespacedId(EmbedPluginId, locals[2]) == "io.paotuan.embed.gacha";
    assert xs[3].id == NamespacedId(EmbedPluginId, locals[3]) == "io.paotuan.embed.fudu";
  }

  /** The embedded replies have pairwise distinct local ids. */
  lemma ReplyLocalIdsDistinct()
    ensures forall i, j :: 0 <= i < j < |EmbedCustomReplies()| ==> EmbedCustomReplies()[i].id != EmbedCustomReplies()[j].id
  {
    ReplyLocalIds();
  }

  /** The embedded rule sets have pairwise distinct local ids. */
  lemma DeciderLocalIdsDistinct()
    ensures forall i, j :: 0 <= i < j < |EmbedRollDeciders()| ==> EmbedRollDeciders()[i].id != EmbedRollDeciders()[j].id
  {
    DeciderLocalIds();
  }

  // ---------------------------------------------------------------------------
  // The version migration

  /** The three roll-decider fields carry the embedded rule sets, as in the initial configuration. */
  predicate HasEmbeddedDeciders(c: StoredConfig) {
    && c.embedPlugin.rollDecider == Some(EmbedRollDeciders())
    && c.rollDeciderId == GetInitialDefaultConfig().rollDeciderId
    && c.rollDeciderIds == GetInitialDefaultConfig().rollDeciderIds
  }

  /** Everything but the version and the three roll-decider fields is the same. */
  predicate SameOutsideDeciders(c: StoredConfig, d: StoredConfig) {
    && d.defaultRoll == c.defaultRoll
    && d.customReplyIds == c.customReplyIds
    && d.lastModified == c.lastModified
    && d.embedPlugin.(rollDecider := c.embedPlugin.rollDecider) == c.embedPlugin
  }

  /** The configuration `handleUpgrade` leaves behind. */
  function Upgrade(c: StoredConfig): (r: StoredConfig)
    ensures r.version != 1
    ensures c.version != 1 ==> r == c
    ensures c.version == 1 ==> r.version == ConfigVersion && HasEmbeddedDeciders(r) && SameOutsideDeciders(c, r)
  {
    if c.version == 1 then
      var rollDeciders := EmbedRollDeciders();
      c.(embedPlugin := c.embedPlugin.(rollDecider := Some(rollDeciders)),
         rollDeciderId := NamespacedId(EmbedPluginId, rollDeciders[0].id),
         rollDeciderIds := DeciderIds(rollDeciders),
         version := ConfigVersion)
    else c
  }

  /** Upgrading twice is upgrading once, and a fresh configuration needs no upgrade. */
  lemma UpgradeIdempotent(c: StoredConfig)
    ensures Upgrade(Upgrade(c)) == Upgrade(c)
    ensures Upgrade(GetInitialDefaultConfig()) == GetInitialDefaultConfig()
  {
  }

  /** A configuration object whose fields `handleUpgrade` assigns. */
  class ConfigObject {
    var version: int
    var defaultRoll: string
    var customReplyIds: seq<SelectionItem>
    var rollDeciderId: string
    var rollDeciderIds: seq<string>
    var embedPlugin: EmbedPlugin
    var lastModified: int

    constructor (c: StoredConfig)
      ensures Value() == c
    {
      version := c.version;
      defaultRoll := c.defaultRoll;
      customReplyIds := c.customReplyIds;
      rollDeciderId := c.rollDeciderId;
      rollDeciderIds := c.rollDeciderIds;
      embedPlugin := c.embedPlugin;
      lastModified := c.lastModified;
    }

    function Value(): StoredConfig
      reads this
    {
      StoredConfig(version, defaultRoll, customReplyIds, rollDeciderId, rollDeciderIds, embedPlugin, lastModified)
    }
  }

  /** `handleUpgrade(config)`: migrates a version-1 configuration in place and returns the same object. */
  method HandleUpgrade(config: ConfigObject) returns (r: ConfigObject)
    modifies config
    ensures r == config
    ensures config.Value() == Upgrade(old(config.Value()))
  {
    if config.version == 1 {
      var rollDeciders := EmbedRollDeciders();
      config.embedPlugin := config.embedPlugin.(rollDecider := Some(rollDeciders));
      config.rollDeciderId := NamespacedId(EmbedPluginId, rollDeciders[0].id);
      config.rollDeciderIds := DeciderIds(rollDeciders);
      config.version := ConfigVersion;
    }
    r := config;
  }

  // ---------------------------------------------------------------------------
  // The initial configuration as config.ts resolves it

  /**
   * A channel configuration that carries the initial embedded plugin and reply
   * selection resolves every selected reply, in order, to its embedded definition.
   */
  lemma InitialRepliesResolve(cc: Config.ChannelConfig, plugin: Option<Config.PluginMaps>)
    requires cc.embedPlugin == GetInitialDefaultConfig().embedPlugin
    requires cc.customReplyIds == GetInitialDefaultConfig().customReplyIds
    ensures Config.CustomReplyProcessors(cc, plugin) == EmbedCustomReplies()
  {
    ReplyLocalIdsDistinct();
    EmbeddedRepliesResolve(cc.embedPlugin, EmbedCustomReplies(), cc.customReplyIds,
      if plugin.Some? then Some(plugin.value.customReply) else None);
  }

  /** With the initial embedded plugin and decider id, the active rule set is the first one, coc0. */
  lemma InitialDeciderSelected(cc: Config.ChannelConfig)
    requires cc.embedPlugin == GetInitialDefaultConfig().embedPlugin
    requires cc.rollDeciderId == GetInitialDefaultConfig().rollDeciderId
    ensures Config.RollDecider(cc) == Some(EmbedRollDeciders()[0])
    ensures EmbedRollDeciders()[0].id == "coc0"
  {
    DeciderLocalIdsDistinct();
    EmbeddedFirstDeciderResolves(cc.embedPlugin, EmbedRollDeciders());
  }

  lemma EmbeddedRepliesResolve(embed: EmbedPlugin, items: seq<CustomReplyConfig>, ids: seq<SelectionItem>,
                               plugin: Option<map<string, CustomReplyConfig>>)
    requires embed.customReply == Some(items)
    requires forall i, j :: 0 <= i < j < |items| ==> items[i].id != items[j].id
    requires |ids| == |items|
    requires forall i :: 0 <= i < |ids| ==> ids[i] == SelectionItem(NamespacedId(embed.id, items[i].id), true)
    ensures Config.Processors(ids, Config.EmbedCustomReplyMap(embed), plugin) == items
  {
    SelectedRepliesResolve(embed.id, items, ids, plugin);
  }

  lemma EmbeddedFirstDeciderResolves(embed: EmbedPlugin, items: seq<RollDeciderConfig>)
    requires embed.rollDecider == Some(items) && |items| > 0
    requires forall i, j :: 0 <= i < j < |items| ==> items[i].id != items[j].id
    ensures var m := Config.EmbedRollDeciderMap(embed);
      NamespacedId(embed.id, items[0].id) in m && m[NamespacedId(embed.id, items[0].id)] == items[0]
  {
    FirstDeciderResolves(embed.id, items);
  }

  /** Selecting every item of a plugin with distinct local ids, in order, gives back the items. */
  lemma SelectedRepliesResolve(pluginId: string, items: seq<CustomReplyConfig>, ids: seq<SelectionItem>,
                               plugin: Option<map<string, CustomReplyConfig>>)
    requires forall i, j :: 0 <= i < j < |items| ==> items[i].id != items[j].id
    requires |ids| == |items|
    requires forall i :: 0 <= i < |ids| ==> ids[i] == SelectionItem(NamespacedId(pluginId, items[i].id), true)
    ensures Config.Processors(ids, Config.Keyed(pluginId, items, Config.ReplyLocalId), plugin) == items
  {
    var m := Config.Keyed(pluginId, items, Config.ReplyLocalId);
    forall i | 0 <= i < |ids| ensures ids[i].enabled && ids[i].id in m && m[ids[i].id] == items[i] {
      Config.KeyedLastWins(pluginId, items, Config.ReplyLocalId, i);
    }
    Config.ProcessorsAllResolved(ids, m, plugin, items);
  }

  /** With distinct local ids, the first rule set is what its namespaced key maps to. */
  lemma FirstDeciderResolves(pluginId: string, items: seq<RollDeciderConfig>)
    requires |items| > 0
    requires forall i, j :: 0 <= i < j < |items| ==> items[i].id != items[j].id
    ensures var m := Config.Keyed(pluginId, items, Config.DeciderLocalId);
      NamespacedId(pluginId, items[0].id) in m && m[NamespacedId(pluginId, items[0].id)] == items[0]
  {
    Config.KeyedLastWins(pluginId, items, Config.DeciderLocalId, 0);
  }
}
