# Channel configuration and `.st` command of a tabletop dice bot

This project models the core of a QQ-channel dice bot for tabletop role-playing games in Dafny. Each chat channel has a configuration. The model covers three parts of it:

- **`ChannelConfig`**, the per-channel view (`server/service/config/config.ts`). It answers:
  - which default roll applies;
  - which custom replies and alias rolls are enabled;
  - which roll-decider rule set is active;
  - which custom texts win.

  It resolves each of these from the channel's stored selection lists against the embedded tier (ids prefixed with `io.paotuan.embed.`) and the plugins' maps. It also holds the four rewrites that normalise a dice expression before it is rolled:
  - case folding that keeps the `F` of Fudge dice;
  - `$`-prefixing of card entry names;
  - replacing bare default-roll tokens (`r`, `d`, `rd`) by the default roll;
  - flattening `${entry}` / `$entry` references and `[[inline]]` rolls into parenthesised text.
- **The built-in defaults** (`server/service/config/default.ts`):
  - the initial channel configuration;
  - the migration of a version-1 configuration;
  - the four embedded custom replies;
  - the eight embedded roll-decider rule sets. Each rule expression is written as a predicate over `roll`, `targetValue` and `baseValue`.
- **`StDiceRoll`**, the `.st` command (`server/service/dice/special/st.ts`). It reads `st [show] [<@!id>] name value, ...`. Depending on the mode and the sender's permission, it either shows entries of the target user's card or rolls each value and writes the totals to the card.

## How the model is organised

Pure getters and regex rewrites are Dafny functions. Each comes with lemmas that tie it to an independent description. Examples:

- a scanner equals a per-position "pieces" definition;
- deleting the inserted `$` gives back the input;
- each inline-roll pass removes two `[` and two `]`.

Where the source updates state step by step, the model is imperative:

| Dafny member | models | kind |
|---|---|---|
| `Normalize.ConvertCase` | `convertCase` | method over an array |
| `InlineParse.NaiveParseInlineRolls` | `naiveParseInlineRolls` | method with its two `while` loops |
| `Defaults.HandleUpgrade` | `handleUpgrade` | method that mutates a configuration object |
| `St.StDiceRoll` | `StDiceRoll` | class whose methods update its fields |
| `Cards.Card` | the card `applyToCard` writes to | class |

Each method's `ensures` ties the new state to the functions that define it, and the lemmas are proved about those functions.

The regexes of config.ts lines 224-233 are written as scanners. Each scanner follows the regex engine:

- a lookbehind reads the original string;
- `+` is greedy, and it backtracks one character at a time when the lookahead fails;
- a global `replace` resumes after each match.

### Behaviour of the code worth knowing

- **Default-roll boundaries are asymmetric.** A default-roll token needs `^` or one of `+ - * / ( {` before it, and `$` or one of `+ - * / ) }` after it (config.ts:229). So `(r)` and `{r}` are rewritten, but neither `r(` nor `}r` is (`Normalize.DefaultRollMatchAt`, `Normalize.ReplaceDefaultRollsIsTokenPieces`).
- **The expansion cap allows 100 passes.** `++depth > 99` is tested after the replace (config.ts:209), so a self-referential entry is expanded 100 times before the loop gives up (`InlineParse.SelfReferenceHitsCap`). The inline-roll loop is a separate loop with no cap. It ends because every pass removes two `[` and two `]` (`InlineParse.ReplaceFirstInlineCounts`).
- **The entry regex backtracks.** When a letter/ideograph run is followed by a digit or `$`, the run minus its last character is tried instead. So in `+abc1` the name `ab` is looked up (`EntryDetect.BacktrackRun`).
- **The active rule set is looked up only in the embedded tier.** The plugin lookup is commented out (config.ts:81), unlike the reply and alias lists, which fall back to the plugin (`Config.RollDecider`).
- **Segments are not trimmed before the name is cut.** `search(/[\s+\-\d]/)` runs on the raw segment (st.ts:59-68). So in `.st 力量60, 敏捷50` the second segment is ` 敏捷50`: its leading space ends the name at once, the name is empty and the segment is dropped without a message. Only `力量` is set (`St.SegmentWithoutNameSkipped`).
- **default.ts and config.ts come from different revisions of the stored configuration.**
  - default.ts writes a `defaultRoll` string, a `rollDeciderIds` list, a `version` and a `lastModified` stamp.
  - config.ts reads a `defaultRoll` record, parse rules, alias-roll and custom-text ids.

  `Defaults.StoredConfig` is default.ts's shape. The lemmas that connect the two (`Defaults.InitialRepliesResolve`, `Defaults.InitialDeciderSelected`) use only the fields both shapes share.

## Model

| member | source | states |
|---|---|---|
| Text.WordCharIsNotDigitOrDollar | server/service/config/config.ts:224 | a character of `[a-zA-Z\p{Unified_Ideograph}]` is never a digit or `$`, so the lookahead `(?![\d$])` can only fail after the run |
| Text.Lower | server/service/config/config.ts:138 | maps `A`-`Z` to `a`-`z` (code point + 32), keeps every other character, and never yields an upper-case ASCII letter |
| Text.LowerString | server/service/config/config.ts:138 | same length as the input, each position lower-cased on its own |
| Text.Drop | server/service/dice/special/st.ts:21 | `slice(n)` clamps: the result has `|s| - n` characters, or none when `n` exceeds the length |
| Text.TrimStart | server/service/dice/special/st.ts:21 | a suffix of the input that starts with a non-space, and everything removed is white space |
| Text.TrimEnd | server/service/dice/special/st.ts:21 | a prefix of the input that ends with a non-space, and everything removed is white space |
| Text.Trim | server/service/dice/special/st.ts:21 | the result is empty or starts and ends with a non-space character |
| Text.TrimmedFixed | server/service/dice/special/st.ts:67 | a string with no white space at either end is its own trim, also after one leading space |
| Text.NoSpaceTrimmed | server/service/dice/special/st.ts:66 | a string without white space is left alone by both halves of `trim` |
| Text.NatToStringDigits | server/service/config/config.ts:206 | `String(n)` of a natural number is a non-empty string of decimal digits |
| Text.IntToStringDigits | server/service/dice/special/st.ts:117 | `String(n)` of an integer is an optional `-` followed by decimal digits |
| Text.NatToStringValue | server/service/config/config.ts:206 | the decimal text `String(n)` of a natural number reads back as `n` |
| Text.IntToStringValue | server/service/dice/special/st.ts:117 | the text `String(n)` of an integer, with its minus sign, reads back as `n` |
| Cards.SetEntryResult | server/service/dice/special/st.ts:131 | `setEntry` adds the name to the keys, stores the value, keeps every other entry, and reports a change exactly when the entries differ afterwards |
| Cards.Card.SetEntry | server/service/dice/special/st.ts:131 | the card's entries and reported change are those of `SetEntryResult`; the rest of the sheet is unchanged |
| ConfigTypes.NamespacedId | server/service/config/config.ts:55-56 | `${pluginId}.${localId}` has the plugin id, a dot, then the local id |
| ConfigTypes.NamespacedIdInjective | server/service/config/config.ts:56 | within one plugin, different local ids give different namespaced ids |
| Config.DefaultRoll | server/service/config/config.ts:39-42 | never empty: the card's default roll when the channel prefers it and the card has one, else the channel's expression, else `d%` |
| Config.Keyed | server/service/config/config.ts:52-57 | every key of the embed map starts with the embedded plugin id |
| Config.KeyedKeys | server/service/config/config.ts:70-75 | a key is in the map exactly when it is the namespaced id of some item |
| Config.KeyedLastWins | server/service/config/config.ts:92-97 | `Object.assign` in order: an item whose local id is not repeated later is what its key maps to |
| Config.KeyedCovers | server/service/config/config.ts:56 | every item's namespaced id is a key of the fold |
| Config.EmbedCustomReplyMap | server/service/config/config.ts:52-57 | empty when the embedded tier has no reply list; otherwise every reply is under `${embedPluginId}.${id}`, and every key starts with the embedded plugin id |
| Config.EmbedRollDeciderMap | server/service/config/config.ts:70-75 | empty when the embedded tier has no rule sets; otherwise every rule set is under its namespaced id, and every key starts with the embedded plugin id |
| Config.EmbedAliasRollMap | server/service/config/config.ts:92-97 | empty when the embedded tier has no alias rolls; otherwise every alias roll is under its namespaced id, and every key starts with the embedded plugin id |
| Config.Processors | server/service/config/config.ts:62-67 | the resolved list is never longer than the selection list |
| Config.ProcessorsAppend | server/service/config/config.ts:100-105 | resolution distributes over concatenation of selection lists, so order is kept |
| Config.ProcessorsSingle | server/service/config/config.ts:62-67 | a disabled id gives nothing; the embedded tier wins over the plugin; an id found in neither is dropped silently |
| Config.ProcessorsMembers | server/service/config/config.ts:62-67 | a processor is in the list exactly when some enabled selected id looks it up |
| Config.ProcessorsMembersAll | server/service/config/config.ts:62-67 | the membership equivalence of `ProcessorsMembers`, for every definition at once |
| Config.CustomReplyProcessors | server/service/config/config.ts:62-67 | at most one reply per selected id; a reply is listed exactly when an enabled selected id finds it in the embedded map or else in the plugins' map |
| Config.AliasRollProcessors | server/service/config/config.ts:100-105 | at most one alias roll per selected id; an alias roll is listed exactly when an enabled selected id finds it in the embedded map or else in the plugins' map |
| Config.ProcessorsAllResolved | server/service/config/config.ts:100-105 | when every selected id is enabled and embedded, the list is exactly their definitions in selection order |
| Config.RollDecider | server/service/config/config.ts:78-82 | no rule set for an empty id; otherwise the embedded rule set of that id, or none when the embedded tier lacks it |
| Config.PluginTextTiers | server/service/config/config.ts:117-118 | at most one tier per selected id; `Config.PluginTextTiersMembers` and `Config.PluginTextTiersAppend` pin down which tiers it keeps and in what order |
| Config.PluginTextTiersMembers | server/service/config/config.ts:117-118 | a tier is kept exactly when a plugin is loaded and some selected id names that tier in it |
| Config.PluginTextTiersAppend | server/service/config/config.ts:117-118 | selection order is kept: the tiers of `a + b` are the tiers of `a` followed by those of `b` |
| Config.PluginTextTiersAt | server/service/config/config.ts:117-118 | a selected id that the plugin defines contributes its tier between the tiers of the ids before it and those after it |
| Config.PluginTextTiersOne | server/service/config/config.ts:117-118 | one selected id that the plugin defines gives exactly its tier |
| Config.PluginTextTiersAfter | server/service/config/config.ts:117-118 | when no later selected id defines a key, no tier kept for the later ids defines it |
| Config.EmbedTextTier | server/service/config/config.ts:116 | no contract of its own: the channel's first embedded text tier, or the built-in one when there is none; `Config.CustomTextMapEmbedFallback` states what it contributes |
| Config.MergeTexts | server/service/config/config.ts:118-120 | no contract of its own: `Config.MergeTextsKeys` and `Config.MergeTextsLastWins` pin down its keys and its values |
| Config.MergeTextsKeys | server/service/config/config.ts:118-120 | the merged map has a key exactly when some tier has it |
| Config.MergeTextsAppend | server/service/config/config.ts:120 | merging `x + y` is the merge of `x` overridden by the merge of `y` |
| Config.MergeTextsOverride | server/service/config/config.ts:119-120 | a key takes the text of the tier merged last among those that define it |
| Config.MergeTextsLastWins | server/service/config/config.ts:118-120 | a key is in the merged map exactly when some tier has it, and its text comes from the last tier that has it |
| Config.CustomTextMapEmbedFallback | server/service/config/config.ts:115-121 | a text no selected plugin overrides keeps the embedded tier's text |
| Config.PluginTextWins | server/service/config/config.ts:115-121 | later configs override earlier ones: a key takes the text of the last selected id whose plugin tier defines it |
| Config.CustomTextMap | server/service/config/config.ts:115-121 | the keys are those of the embedded text tier together with those of every selected plugin tier |
| Defaults.GetInitialDefaultConfig | server/service/config/default.ts:6-25 | version 2, default roll `d100`, every embedded reply selected and enabled, all eight rule sets listed and the first one active, namespaced under `io.paotuan.embed` |
| Defaults.DeciderIds | server/service/config/default.ts:16 | one namespaced id per rule set |
| Defaults.ReplySelection | server/service/config/default.ts:13 | one selection entry per embedded reply |
| Defaults.ReplyLocalIds | server/service/config/default.ts:38-105 | the embedded replies are `jrrp`, `coccardrand`, `gacha`, `fudu`, in that order |
| Defaults.DeciderLocalIds | server/service/config/default.ts:160-347 | the embedded rule sets are `coc0`, `dnd0`, `coc1` … `coc6`, in that order |
| Defaults.EmbedCustomReplies | server/service/config/default.ts:38-105 | no contract of its own: `Defaults.ReplyLocalIds` and `Defaults.ReplyLocalIdsDistinct` pin down its ids and their order |
| Defaults.EmbedRollDeciders | server/service/config/default.ts:160-347 | no contract of its own: `Defaults.DeciderLocalIds`, `Defaults.DeciderLocalIdsDistinct` and `RuleSets.RuleSetsMatchEmbedded` pin down its ids, their order and the rules behind them |
| Defaults.InitialIdLists | server/service/config/default.ts:13-16 | the initial id lists written out: `io.paotuan.embed.coc0` active, and the full decider and reply id lists |
| Defaults.ReplyLocalIdsDistinct | server/service/config/default.ts:38-105 | no two embedded replies share a local id |
| Defaults.DeciderLocalIdsDistinct | server/service/config/default.ts:160-347 | no two embedded rule sets share a local id |
| Defaults.Upgrade | server/service/config/default.ts:27-36 | a version-1 configuration gets the embedded rule sets, `coc0` active, the decider id list and version 2, with every other field kept; any other version is returned as is |
| Defaults.UpgradeIdempotent | server/service/config/default.ts:27-36 | upgrading twice is upgrading once, and the initial configuration needs no upgrade |
| Defaults.HandleUpgrade | server/service/config/default.ts:27-36 | mutates the configuration object in place to `Upgrade` of its old value and returns the same object |
| Defaults.InitialRepliesResolve | server/service/config/default.ts:13-19 | with the initial selection, the channel's reply processors are exactly the embedded replies in order |
| Defaults.InitialDeciderSelected | server/service/config/default.ts:15 | with the initial selection, the channel's active rule set is `coc0` |
| Defaults.SelectedRepliesResolve | server/service/config/config.ts:52-67 | selecting every item of a tier with distinct local ids resolves to exactly those items |
| Defaults.FirstDeciderResolves | server/service/config/config.ts:70-82 | the namespaced id of a tier's first rule set looks up that rule set |
| RuleSets.RuleSetsMatchEmbedded | server/service/config/default.ts:160-347 | the eight rule-set predicates line up one by one with the embedded rule sets' ids |
| RuleSets.Holds | server/service/config/default.ts:160-347 | no contract of its own: `RuleSets.HoldsIsJsHolds` proves it equal to each rule expression as JavaScript evaluates it |
| RuleSets.JsRem11 | server/service/config/default.ts:329 | JavaScript `%` by 11 lies strictly between -11 and 11, agrees with the mathematical remainder for non-negative operands, and is zero exactly when 11 divides |
| RuleSets.HoldsIsJsHolds | server/service/config/default.ts:283-310 | each rule with its denominators cleared holds exactly when the expression as written holds under JavaScript's real-valued `/` and truncating `%` |
| RuleSets.FailSuccessComplement | server/service/config/default.ts:160-347 | in every rule set, `fail` holds exactly when `success` does not |
| RuleSets.WorstBestExclusive | server/service/config/default.ts:160-347 | no roll is both a worst and a best outcome in any rule set |
| RuleSets.Classify | server/service/config/default.ts:160-347 | the first rule that holds in the order worst, best, fail, success; an earlier rule that holds is never passed over |
| RuleSets.Coc0AgreesWithDescription | server/service/config/default.ts:163-182 | for rolls 1 to 100, coc0's best is a roll of 1, and its worst is 96-100 below skill base 50 and 100 otherwise |
| RuleSets.Coc0Examples | server/service/config/default.ts:163-182 | (97, 50, 40) is worst, (1, 50, 60) is best and (60, 50, 60) is a failure under coc0 |
| RuleSets.TruncatingDivisionDiffers | server/service/config/default.ts:283 | with skill 45 and base below 50, a roll of 100 is not a coc4 worst outcome, although it would be if `/` truncated |
| RuleSets.Coc6RepeatedDigit | server/service/config/default.ts:329-333 | for rolls 1 to 99, `roll % 11 == 0` means the two digits are equal |
| RuleSets.ClassifyTotal | server/service/config/default.ts:160-347 | some rule of every rule set holds for every context |
| Normalize.FudgeIndexes | server/service/config/config.ts:137 | `matchAll(/dF/g)` finds exactly the positions where `dF` starts |
| Normalize.CaseConverted | server/service/config/config.ts:137-146 | the folded expression has the input's length |
| Normalize.ConvertCase | server/service/config/config.ts:135-149 | with case conversion on, the array loop yields the lower-cased expression with `F` restored after every original `dF`; with it off, the input |
| Normalize.CaseConvertedIdempotent | server/service/config/config.ts:135-149 | converting an already converted expression changes nothing |
| Normalize.CaseConvertedExample | server/service/config/config.ts:135-149 | `1dF+AB` becomes `1dF+ab` and `1DF` becomes `1df` |
| Normalize.DefaultRollMatchAt | server/service/config/config.ts:229 | a match at a position never runs past the end of the expression |
| Normalize.DetectDefaultRollCalculation | server/service/config/config.ts:175-183 | with detection off, or when the whole expression is `r`, `d` or `rd`, the expression is returned unchanged |
| Normalize.TokensDisjoint | server/service/config/config.ts:229 | two standalone default-roll tokens never overlap |
| Normalize.ReplaceDefaultRollsIsTokenPieces | server/service/config/config.ts:180 | the left-to-right regex replacement equals the per-position description: each standalone token becomes the default roll and every other character is kept |
| Normalize.ReplaceDefaultRolls | server/service/config/config.ts:180 | no contract of its own: `Normalize.ReplaceDefaultRollsIsTokenPieces` proves it equal to the per-position description |
| Normalize.PairMatch | server/service/config/config.ts:229 | when the scanner takes two characters, they form the token `rd` and its `d` is not a token of its own |
| Normalize.SingleMatch | server/service/config/config.ts:229 | when the scanner takes one character, it is a token and is not the start of `rd` |
| Normalize.NoMatch | server/service/config/config.ts:229 | when the scanner takes nothing, no token starts there |
| Normalize.DetectDefaultRollReplacesTokens | server/service/config/config.ts:175-183 | with detection on and a non-bare expression, every standalone `r`/`d`/`rd` is replaced by the channel's default roll and nothing else changes |
| Normalize.DetectDefaultRollExample | server/service/config/config.ts:175-183 | `r+5` with default roll `d100` becomes `d100+5` |
| EntryDetect.RunEnd | server/service/config/config.ts:224 | the end of the greedy letter/ideograph run lies within the string |
| EntryDetect.RunEndWord | server/service/config/config.ts:224 | the run holds only word characters and stops at the end or at a non-word character |
| EntryDetect.RunEndUnique | server/service/config/config.ts:224 | any maximal run of word characters from a position is the one the scanner finds |
| EntryDetect.Backtrack | server/service/config/config.ts:224 | backtracking only shortens the run, to a length whose next character is not a digit or `$` |
| EntryDetect.BacktrackRun | server/service/config/config.ts:224 | the match after a boundary is the whole run, or the run minus its last character when a digit or `$` follows, or nothing for a one-character run |
| EntryDetect.BacktrackAtStart | server/service/config/config.ts:225 | the leading match must be followed by one of `+ - * /` |
| EntryDetect.BacktrackAtStartRun | server/service/config/config.ts:225 | on a leading run, the anchored regex matches the whole run when an operator follows it, and nothing otherwise |
| EntryDetect.DetectCardEntry | server/service/config/config.ts:154-170 | expressions starting with `st` or `en` are returned unchanged, and so is every expression when detection is off or there is no card |
| EntryDetect.FirstPassMarks | server/service/config/config.ts:224 | one mark per character of the expression |
| EntryDetect.EntryMarks | server/service/config/config.ts:224-225 | one mark per character, combining the after-boundary matches and the leading match |
| EntryDetect.RemoveInsert | server/service/config/config.ts:160-167 | deleting the inserted `$`s gives back the original expression |
| EntryDetect.InsertFromUnmarked | server/service/config/config.ts:167 | unmarked characters are copied through unchanged |
| EntryDetect.EntryMatchMarks | server/service/config/config.ts:224 | a position after a boundary is marked exactly when its (possibly backtracked) match names an entry or ability of the card |
| EntryDetect.ReplaceEntriesMarks | server/service/config/config.ts:167 | the first `replace` inserts `$` exactly before the marked positions |
| EntryDetect.ReplaceEntries | server/service/config/config.ts:167 | no contract of its own: `EntryDetect.ReplaceEntriesMarks` proves it inserts `$` exactly before the marked positions |
| EntryDetect.FirstPassKeepsLeadingRun | server/service/config/config.ts:167 | the first pass leaves the leading run and the character after it where they were, so the second regex sees the same leading run |
| EntryDetect.BothPassesInsertMarks | server/service/config/config.ts:167 | the two chained replaces together insert `$` exactly before the marked positions |
| EntryDetect.ReplaceLeading | server/service/config/config.ts:167 | the anchored pass either leaves the expression alone or puts one `$` in front of it; `EntryDetect.BothPassesInsertMarks` says when |
| EntryDetect.DetectCardEntryInsertsMarks | server/service/config/config.ts:154-170 | with detection on and a card, the result is the expression with `$` inserted before each marked position |
| EntryDetect.MarkedIsRunStart | server/service/config/config.ts:224-225 | each marked position starts a run of word characters, and two marks are never in the same run |
| EntryDetect.DetectCardEntryExample | server/service/config/config.ts:154-170 | `力量+10` becomes `$力量+10` on a card with entry `力量`, and `st力量+10` is left unchanged |
| InlineParse.BraceClose | server/service/config/config.ts:232 | the lazy `\{(.*?)\}` closes at a `}` |
| InlineParse.BraceCloseFirst | server/service/config/config.ts:232 | no `}` and no line terminator comes before the closing brace |
| InlineParse.BraceCloseAt | server/service/config/config.ts:232 | the first `}` on the line is the one the lazy match stops at |
| InlineParse.EntryRefAt | server/service/config/config.ts:232 | a reference starts with `$` and is at least `$x` long, and at least `${}` when braced |
| InlineParse.HasEntryRefFromIff | server/service/config/config.ts:198 | `ENTRY_REGEX.test` holds exactly when a reference starts at some position |
| InlineParse.Resolve | server/service/config/config.ts:195-206 | a key resolves to text exactly when the card has a non-empty ability or an entry of that name; the text is a parenthesised ability, or the entry value in decimal, which reads back as that value |
| InlineParse.ResolveDollarFree | server/service/config/config.ts:199-207 | only an ability expression can bring a new `$` into the expression |
| InlineParse.EntryPasses | server/service/config/config.ts:198-213 | the capped loop stops before its budget only once no reference is left |
| InlineParse.DollarFreeCopied | server/service/config/config.ts:199 | text without `$` is copied through a pass unchanged |
| InlineParse.ReplacedAtMatch | server/service/config/config.ts:199-207 | a matched reference is replaced by its resolution and scanning resumes after it |
| InlineParse.ReplaceEntryRefs | server/service/config/config.ts:199-207 | no contract of its own: `InlineParse.DollarFreeCopied`, `InlineParse.ReplacedAtMatch` and `InlineParse.OneReferenceResolved` pin down one pass |
| InlineParse.EntryPassesDollarFree | server/service/config/config.ts:198-213 | an expression without `$` has no reference and leaves the loop unchanged |
| InlineParse.ReferenceMatched | server/service/config/config.ts:232 | a well-formed `${key}` or `$key` is matched where it starts, over its full length, and its key is read back |
| InlineParse.OneReferenceResolved | server/service/config/config.ts:199-207 | one pass over `a` + reference + `b`, with no `$` in `a` or `b`, yields `a` + resolution + `b` |
| InlineParse.ResolveExamples | server/service/config/config.ts:195-206 | a missing key resolves to the empty string, and an entry of value 0 to `0` |
| InlineParse.WrappedPass | server/service/config/config.ts:199-207 | an ability `x` defined as `$x` wraps the expression in one more pair of parentheses per pass |
| InlineParse.WrappedPasses | server/service/config/config.ts:198-213 | after `n` passes the self-reference is wrapped `n` more times and is still present |
| InlineParse.SelfReferenceHitsCap | server/service/config/config.ts:209-212 | a self-referential ability is expanded exactly 100 times before the loop gives up, and a reference remains |
| InlineParse.BracketFreeEnd | server/service/config/config.ts:233 | the `[^[\]]+` scan ends within the string |
| InlineParse.BracketFreeEndStops | server/service/config/config.ts:233 | the scanned text has no bracket and stops at the end or at a bracket |
| InlineParse.InlineMatchAt | server/service/config/config.ts:233 | a match is `[[`, a non-empty interior, then `]]` |
| InlineParse.InlineMatchInterior | server/service/config/config.ts:233 | the interior of a match holds no `[` or `]` |
| InlineParse.FirstInline | server/service/config/config.ts:233 | the first match found is a match |
| InlineParse.FirstInlineLeftmost | server/service/config/config.ts:233 | no match starts before the first one, and when none is found none exists |
| InlineParse.ReplaceFirstInline | server/service/config/config.ts:216 | replacing `[[x]]` by `(x)` shortens the expression by two |
| InlineParse.ReplaceFirstInlineCounts | server/service/config/config.ts:215-217 | each pass removes exactly two `[` and two `]`, so the loop terminates |
| InlineParse.InlineFix | server/service/config/config.ts:215-217 | the loop's result has no inline roll left and no more `[` than its input |
| InlineParse.NoInlineWithoutBracket | server/service/config/config.ts:215 | an expression without `[` has no inline roll |
| InlineParse.InlineReplacedAt | server/service/config/config.ts:216 | a pass rewrites the leftmost match `[[x]]` to `(x)` and keeps the text around it |
| InlineParse.InlineFixStep | server/service/config/config.ts:215-217 | the loop's result is the same after one pass |
| InlineParse.InlineFixExample | server/service/config/config.ts:215-217 | `[[1d3+1]]` becomes `(1d3+1)` |
| InlineParse.InlineFixNestedExample | server/service/config/config.ts:215-217 | `[[1+[[2]]]]` becomes `(1+(2))`, inner roll first |
| InlineParse.NaiveParseInlineRolls | server/service/config/config.ts:191-220 | with the toggle off, the expression is unchanged; with it on, references are expanded for at most 100 passes, then inline rolls are flattened |
| InlineParse.ExpandEntryRefs | server/service/config/config.ts:197-213 | the reference loop with its counter computes 100 capped passes |
| InlineParse.FlattenInlineRolls | server/service/config/config.ts:215-217 | the inline-roll loop computes the flattening with no inline roll left |
| St.DigitRunEnd | server/service/dice/special/st.ts:7 | the `\d+` run holds only digits and stops at the end or a non-digit |
| St.MatchAtUser | server/service/dice/special/st.ts:7 | a match is a non-empty digit id, and the matched prefix is exactly `<@!id>` |
| St.MatchAtUserRoundTrip | server/service/dice/special/st.ts:138-140 | the mention `at(id)` of a digit id, whatever follows, is matched back as `id` |
| St.ShowHeader | server/service/dice/special/st.ts:21-26 | `st show rest` sets show mode and leaves `rest` |
| St.TargetHeader | server/service/dice/special/st.ts:28-34 | a leading mention becomes the target user, and the rest is trimmed |
| St.StripShow | server/service/dice/special/st.ts:23-26 | show mode exactly when the text starts with `show`; then the word is cut and the rest trimmed, otherwise the text is kept |
| St.StripTarget | server/service/dice/special/st.ts:28-34 | without a leading mention the sender is the target and the text is kept; with one, the target is its non-empty digit id, the text starts with that mention, and the rest is shorter and trimmed |
| St.PieceEnd | server/service/dice/special/st.ts:59 | a piece stops at the first separator `, ， ; ；` or at the end |
| St.SeparatorRunEnd | server/service/dice/special/st.ts:59 | `[,，;；]+` consumes a run made only of separators |
| St.PieceEndIs | server/service/dice/special/st.ts:59 | a piece ends exactly where the first separator, or the end, follows separator-free text |
| St.SeparatorRunEndIs | server/service/dice/special/st.ts:59 | `[,，;；]+` ends exactly where the run of separators does |
| St.Split | server/service/dice/special/st.ts:59 | `split(/[,，;；]+/)`, never empty; pinned by `St.SplitStep`, `St.SplitPiecesFree` and `St.SplitKeepsText` |
| St.SplitStep | server/service/dice/special/st.ts:59 | separator-free text, then a run of separators, then the rest: the text is the first piece and the pieces of the rest follow, so cuts fall only at runs of separators, in order |
| St.SplitPiecesFree | server/service/dice/special/st.ts:59 | no piece of the split holds a separator |
| St.SplitKeepsText | server/service/dice/special/st.ts:59 | concatenating the pieces gives the expression without its separators |
| St.NonBlankKeeps | server/service/dice/special/st.ts:59 | the filter keeps a piece exactly when it is one of the pieces and not blank |
| St.NonBlankCons | server/service/dice/special/st.ts:59 | the filter keeps the first piece unless it is blank, then filters the rest in order |
| St.Segments | server/service/dice/special/st.ts:59 | the segments are exactly the non-blank pieces of the split, and hold no separator |
| St.SegmentsStep | server/service/dice/special/st.ts:59 | segments in order: the text before the first run of separators is the first segment unless blank, then the segments of the rest |
| St.SegmentsOfOne | server/service/dice/special/st.ts:59 | an expression without a separator is one segment, or none when blank |
| St.SegmentsExample | server/service/dice/special/st.ts:59 | `力量60，敏捷50` gives the segments `力量60` and `敏捷50`, in that order |
| St.NameEnd | server/service/dice/special/st.ts:64 | `search(/[\s+\-\d]/)` finds the first white-space, sign or digit character |
| St.ParseSegment | server/service/dice/special/st.ts:63-68 | an accepted segment gives a non-empty name, which is the part before the first name-ending character and holds none, and a non-empty value, which is the trimmed rest |
| St.SegmentWithoutNameSkipped | server/service/dice/special/st.ts:64-68 | a segment starting with white space, a sign or a digit has an empty name and is skipped |
| St.NameTrimmed | server/service/dice/special/st.ts:64-66 | the text before the first name-ending character is kept whole by `trim`: the name has that length, is that prefix, and holds no name-ending character |
| St.ParseSegmentRoundTrip | server/service/dice/special/st.ts:63-68 | a name followed by a value that starts with a name-ending character parses back into the name and the trimmed value |
| St.SegmentRoll | server/service/dice/special/st.ts:62-82 | a segment is rolled exactly when it parses; the roll is named after the parsed name or its `修正` entry, and its result is the evaluation of its non-empty expression for the target user |
| St.DndSkillRedirected | server/service/dice/special/st.ts:71-79 | on a DnD card, `运动+2` for a skill entry without postfix sets `运动修正` to the roll of `${运动修正}+2` |
| St.AbsoluteValueKept | server/service/dice/special/st.ts:78-79 | on another card, `力量 60` sets `力量` to the roll of `60`, an absolute value |
| St.CollectCount | server/service/dice/special/st.ts:62-82 | one roll per segment that yields one |
| St.CollectAppend | server/service/dice/special/st.ts:62-82 | the rolls of two segment lists are the rolls of each, in order |
| St.CollectSingle | server/service/dice/special/st.ts:62-82 | one segment gives its roll, or nothing |
| St.CollectAll | server/service/dice/special/st.ts:62-82 | when every segment yields a roll, the rolls are those in segment order |
| St.CollectFrom | server/service/dice/special/st.ts:62-82 | every collected roll is the roll of some segment |
| St.SetRolls | server/service/dice/special/st.ts:59-82 | at most one roll per segment, each with a non-empty name and expression and the result of evaluating that expression for the target |
| St.ShowLines | server/service/dice/special/st.ts:85-93 | one display line per segment, in order, or the card summary alone when no segment is given |
| St.ApplyRolls | server/service/dice/special/st.ts:127-134 | when no `setEntry` call reports a change, the entries are as they were |
| St.ApplyRollsFrame | server/service/dice/special/st.ts:127-134 | the rolled names are added to the entries, and every entry no roll names is kept |
| St.LastWriteWins | server/service/dice/special/st.ts:128-133 | the last roll of a name decides that entry's value |
| St.RenderMentionsTarget | server/service/dice/special/st.ts:95-121 | every reply except the denial and the prompt starts with a mention that reads back as the target user |
| St.RenderWithoutCard | server/service/dice/special/st.ts:96-98 | without a card, the reply depends only on the target user |
| St.RenderDeniedIgnoresRolls | server/service/dice/special/st.ts:107-109 | set mode without permission gives the same denial, whatever was rolled |
| St.Render | server/service/dice/special/st.ts:95-121 | the denial starts with the sender's name, the prompt for a missing value with a mention of the sender, and every other reply with a mention of the target |
| St.EditPermitted | server/service/dice/special/st.ts:46-56 | `all` permits every role, `none` no role, and `manager` every role but `user` |
| St.PermissionOrdered | server/service/dice/special/st.ts:46-56 | whoever `none` permits `manager` permits, whoever `manager` permits `all` permits, and `manager` refuses some role |
| St.StDiceRoll.constructor | server/service/dice/special/st.ts:11-18 | a new command starts in set mode with no target, expression, card, rolls or shows |
| St.StDiceRoll.HasEditPermission | server/service/dice/special/st.ts:46-56 | no contract of its own: `St.EditPermitted` of the channel's writable setting and the sender's role |
| St.StDiceRoll.Output | server/service/dice/special/st.ts:95-121 | the reply of `output` is addressed as `St.Render` says: to the target, except the denial (the sender's name) and the prompt (a mention of the sender) |
| St.StDiceRoll.Roll | server/service/dice/special/st.ts:20-44 | after `roll()`: the mode and target come from the header; the card is the target's; rolls are appended only in set mode with permission, and shows only in show mode; without a card nothing else changes |
| St.StDiceRoll.RollTarget | server/service/dice/special/st.ts:36-43 | looks up the target's card, then shows, sets or does nothing, by mode and permission |
| St.StDiceRoll.ReadHeader | server/service/dice/special/st.ts:21-34 | the mode, the target user and the remaining expression are those of the header functions |
| St.StDiceRoll.ReadMode | server/service/dice/special/st.ts:21-26 | drops the command word and takes a leading `show` as show mode |
| St.StDiceRoll.ReadTarget | server/service/dice/special/st.ts:28-34 | a leading mention sets the target, and otherwise the sender is the target |
| St.StDiceRoll.RollSet | server/service/dice/special/st.ts:58-83 | appends one roll per accepted segment, in order, and changes nothing else |
| St.StDiceRoll.PushRolls | server/service/dice/special/st.ts:62-82 | the `forEach` appends the roll of each segment that yields one |
| St.StDiceRoll.RollShow | server/service/dice/special/st.ts:85-93 | appends the display lines of the segments, or the summary, and changes nothing else |
| St.StDiceRoll.ApplyToCard | server/service/dice/special/st.ts:123-135 | in show mode, without a card or without rolls, nothing is written and nothing returned; otherwise every total is written in order and the card is returned exactly when some write reported a change |

## Left out

- Logging: the `console.error` on reaching the expansion cap is not modelled.
- The `mobx` observable wrapper and plugin loading are not modelled. The plugins' reply, alias-roll and text maps are given maps.
- `decideRoll` and its expression evaluator are not part of this model. `RuleSets.Classify` follows the documented order worst, best, fail, success over the predicates.
- `parseAliasRoll` and alias template expansion are not modelled; their source is not part of this model. `Config.AliasRollProcessors` only resolves the enabled alias list.
- `formatCustomText` and custom-text rendering are not modelled. The built-in text tier `getEmbedCustomText()` is a parameter, because its source is not part of this model.
- `botOwner` and `specialDice` are plain field reads and have no model. The `.st` writable setting is a field of `StDiceRoll`.
- St.StDiceRoll.RollSet: an expression the dice roller rejects makes `new DiceRoll` throw inside the `forEach` (st.ts:80-81), for example `.st 力量 abc`. That aborts the command before any output or card update. The evaluator here is a total function, so this abort is not modelled.
- Dice evaluation (`parseTemplate` followed by `new DiceRoll`) is the parameter `evaluate`. The card's `getEntryDisplay` and `getSummary` are the parameters `display` and `summary`.
- Card lookups (`getEntry`, `getAbility`) are map lookups on a sheet value. The card class hierarchy is a `kind` tag.
- Cards.SetEntryResult: a name the card does not have is added as a plain entry. Real card classes may instead refuse it or map it to a skill, and that code is not part of this model.
- Text.Lower: maps only ASCII capitals to lower case; `toLowerCase` folds other scripts too. `Text.LowerString` and `Normalize.CaseConverted` inherit this.
- Text.LowerString: lower-cases through `Text.Lower`, so only ASCII letters fold, and the length never changes.
- Normalize.CaseConverted: folds only ASCII letters, through `Text.LowerString`. `toLowerCase` also folds other scripts, and a few characters change length, which would shift the `dF` offsets.
- `\p{Unified_Ideograph}` is the Unicode 15.1 table. Strings are sequences of code points, so characters outside the basic plane, which JavaScript sees as two UTF-16 units, are not modelled.
- Keys such as `constructor` or `__proto__`, which JavaScript objects inherit, are treated as absent from the id maps.
- `String(x)` is modelled only for integers. Entry values and roll totals are integers here.
- `getEmbedAliasRoll` is unused (its only call is commented out) and is not modelled. Reply weights and reply templates are kept as data only.
- server/qqApi.ts and the example plugin are context, not core, and are not modelled.
