/**
 * `detectCardEntry` of `ChannelConfig` (server/service/config/config.ts): puts a
 * `$` before the letter/ideograph runs of an expression that name an entry or
 * an ability of the card. The two regexes are modelled as scanners that follow
 * the regex engine: a lookbehind on the original string, a greedy run, and
 * backtracking when the lookahead fails.
 */
module EntryDetect {
  import opened Wrappers
  import opened Text
  import opened Cards
  import opened Config

  /** The end of the maximal run of word characters starting at `i`. */
  function RunEnd(s: string, i: nat): (j: nat)
    requires i <= |s|
    ensures i <= j <= |s|
    decreases |s| - i
  {
    if i == |s| || !IsWordChar(s[i]) then i else RunEnd(s, i + 1)
  }

  /** The run is all word characters, and it stops at the end or at a character that is not one. */
  lemma {:induction false} RunEndWord(s: string, i: nat)
    requires i <= |s|
    ensures forall k :: i <= k < RunEnd(s, i) ==> IsWordChar(s[k])
    ensures RunEnd(s, i) == |s| || !IsWordChar(s[RunEnd(s, i)])
    decreases |s| - i
  {
    if i < |s| && IsWordChar(s[i]) {
      RunEndWord(s, i + 1);
    }
  }

  /** A run is determined by its characters: any `j` with the run properties is `RunEnd(s, i)`. */
  lemma {:induction false} RunEndUnique(s: string, i: nat, j: nat)
    requires i <= j <= |s|
    requires forall k :: i <= k < j ==> IsWordChar(s[k])
    requires j == |s| || !IsWordChar(s[j])
    ensures RunEnd(s, i) == j
    decreases j - i
  {
    if i < j {
      RunEndUnique(s, i + 1, j);
    }
  }

  // `(?![\d$])` at position `k`.
  predicate NotDigitOrDollarAt(s: string, k: nat)
    requires k <= |s|
  {
    k == |s| || !(IsAsciiDigit(s[k]) || s[k] == '$')
  }

  /**
   * The greedy `[...]+` followed by `(?![\d$])`: try the run of length `len`,
   * then give back one character at a time until the lookahead holds.
   */
  function Backtrack(s: string, i: nat, len: nat): (r: Option<nat>)
    requires i + len <= |s|
    ensures r.Some? ==> 0 < r.value <= len && NotDigitOrDollarAt(s, i + r.value)
    decreases len
  {
    if len == 0 then None
    else if NotDigitOrDollarAt(s, i + len) then Some(len)
    else Backtrack(s, i, len - 1)
  }

  /** `MAYBE_ENTRY_REGEX` at `i`: the length of the candidate handed to the replacer, if any. */
  function EntryMatchAt(s: string, i: nat): Option<nat>
    requires i <= |s|
  {
    if i > 0 && IsLeftBoundary(s[i - 1]) then Backtrack(s, i, RunEnd(s, i) - i) else None
  }

  /** The replacer: `$` + key when the card names the key, the key itself otherwise. */
  function Replacer(sheet: Sheet, key: string): string {
    if Names(sheet, key) then "$" + key else key
  }

  /** `expression.replace(MAYBE_ENTRY_REGEX, replacer)`, scanning from `i`. */
  function ReplaceEntries(s: string, i: nat, sheet: Sheet): string
    requires i <= |s|
    decreases |s| - i
  {
    if i == |s| then []
    else match EntryMatchAt(s, i)
      case Some(n) => Replacer(sheet, s[i..i + n]) + ReplaceEntries(s, i + n, sheet)
      case None => [s[i]] + ReplaceEntries(s, i + 1, sheet)
  }

  predicate IsOperator(c: char) {
    c == '+' || c == '-' || c == '*' || c == '/'
  }

  /** The greedy run at the start followed by `(?=[+\-*\/])`, backtracking one character at a time. */
  function BacktrackAtStart(s: string, len: nat): (r: Option<nat>)
    requires len <= |s|
    ensures r.Some? ==> 0 < r.value <= len && r.value < |s| && IsOperator(s[r.value])
  {
    if len == 0 then None
    else if len < |s| && IsOperator(s[len]) then Some(len)
    else BacktrackAtStart(s, len - 1)
  }

  /**
   * `expression.replace(MAYBE_ENTRY_REGEX_AT_START, replacer)`: only position 0
   * can match, so the pass at most puts one `$` in front.
   */
  function ReplaceLeading(s: string, sheet: Sheet): (r: string)
    ensures r == s || r == "$" + s
  {
    match BacktrackAtStart(s, RunEnd(s, 0))
    case Some(n) =>
      assert s[..n] + s[n..] == s;
      Replacer(sheet, s[..n]) + s[n..]
    case None => s
  }

  /** `detectCardEntry(expression, card)` */
  function DetectCardEntry(config: ChannelConfig, expression: string, card: Option<Sheet>): (r: string)
    ensures StartsWith(expression, "st") || StartsWith(expression, "en") ==> r == expression
    ensures !config.parseRule.detectCardEntry || card.None? ==> r == expression
  {
    if StartsWith(expression, "st") || StartsWith(expression, "en") then expression
    else if config.parseRule.detectCardEntry && card.Some? then
      ReplaceLeading(ReplaceEntries(expression, 0, card.value), card.value)
    else expression
  }

  // ---------------------------------------------------------------------------
  // The reference description: which positions receive a `$`.

  /**
   * A run that follows one of `+ - * / ( {`: the candidate is the whole run, or,
   * when a digit or `$` follows the run, the run without its last character
   * (so a one-character run there is never a candidate).
   */
  predicate MarkedAfterBoundary(s: string, i: nat, sheet: Sheet)
    requires i < |s|
  {
    && i > 0 && IsLeftBoundary(s[i - 1]) && IsWordChar(s[i])
    && var e := RunEnd(s, i);
       if NotDigitOrDollarAt(s, e) then Names(sheet, s[i..e])
       else e - i >= 2 && Names(sheet, s[i..e - 1])
  }

  /** The run at the start of the expression, when one of `+ - * /` follows it. */
  predicate MarkedAtStart(s: string, sheet: Sheet) {
    var e := RunEnd(s, 0);
    0 < e < |s| && IsOperator(s[e]) && Names(sheet, s[..e])
  }

  predicate Marked(s: string, i: nat, sheet: Sheet)
    requires i < |s|
  {
    if i == 0 then MarkedAtStart(s, sheet) else MarkedAfterBoundary(s, i, sheet)
  }

  function FirstPassMarks(s: string, sheet: Sheet): (m: seq<bool>)
    ensures |m| == |s|
  {
    seq(|s|, i requires 0 <= i < |s| => MarkedAfterBoundary(s, i, sheet))
  }

  /** For each position of the expression, whether a `$` is inserted before it. */
  function EntryMarks(s: string, sheet: Sheet): (m: seq<bool>)
    ensures |m| == |s|
  {
    seq(|s|, i requires 0 <= i < |s| => Marked(s, i, sheet))
  }

  /** The expression from `i` on with a `$` before every marked position. */
  function InsertFrom(s: string, m: seq<bool>, i: nat): string
    requires |m| == |s| && i <= |s|
    decreases |s| - i
  {
    if i == |s| then [] else (if m[i] then "$" else "") + [s[i]] + InsertFrom(s, m, i + 1)
  }

  /** Drops the `$` before every marked position again. */
  function Remove(r: string, m: seq<bool>): string
    decreases m
  {
    if m == [] || r == [] then []
    else if m[0] then (if |r| >= 2 then [r[1]] + Remove(r[2..], m[1..]) else [])
    else [r[0]] + Remove(r[1..], m[1..])
  }

  /** Deleting the inserted `$`s gives back the input. */
  lemma {:induction false} RemoveInsert(s: string, m: seq<bool>, i: nat)
    requires |m| == |s| && i <= |s|
    ensures Remove(InsertFrom(s, m, i), m[i..]) == s[i..]
    decreases |s| - i
  {
    if i < |s| {
      RemoveInsert(s, m, i + 1);
      var rest := InsertFrom(s, m, i + 1);
      assert m[i..][1..] == m[i + 1..];
      if m[i] {
        assert InsertFrom(s, m, i) == ['$', s[i]] + rest;
        assert (['$', s[i]] + rest)[2..] == rest;
      } else {
        assert InsertFrom(s, m, i) == [s[i]] + rest;
        assert ([s[i]] + rest)[1..] == rest;
      }
      assert s[i..] == [s[i]] + s[i + 1..];
    }
  }

  /** Unmarked positions are copied unchanged. */
  lemma {:induction false} InsertFromUnmarked(s: string, m: seq<bool>, i: nat, j: nat)
    requires |m| == |s| && i <= j <= |s|
    requires forall k :: i <= k < j ==> !m[k]
    ensures InsertFrom(s, m, i) == s[i..j] + InsertFrom(s, m, j)
    decreases j - i
  {
    if i < j {
      InsertFromUnmarked(s, m, i + 1, j);
      InsertFromStep(s, m, i);
      ConsSlice(s, i, j, InsertFrom(s, m, j));
    }
  }

  /** An unmarked position is copied as it is. */
  lemma InsertFromStep(s: string, m: seq<bool>, i: nat)
    requires |m| == |s| && i < |s| && !m[i]
    ensures InsertFrom(s, m, i) == [s[i]] + InsertFrom(s, m, i + 1)
  {
    assert "" + [s[i]] == [s[i]];
  }

  /** Two mark sequences that agree from `i` on insert the same. */
  lemma {:induction false} InsertFromAgree(s: string, m: seq<bool>, m': seq<bool>, i: nat)
    requires |m| == |s| && |m'| == |s| && i <= |s|
    requires forall k :: i <= k < |s| ==> m[k] == m'[k]
    ensures InsertFrom(s, m, i) == InsertFrom(s, m', i)
    decreases |s| - i
  {
    if i < |s| {
      InsertFromAgree(s, m, m', i + 1);
    }
  }

  /** The backtracking gives back at most one character, because a run's own characters pass the lookahead. */
  lemma BacktrackRun(s: string, i: nat)
    requires i <= |s|
    ensures var e := RunEnd(s, i);
      Backtrack(s, i, e - i) ==
        if e == i then None
        else if NotDigitOrDollarAt(s, e) then Some(e - i)
        else if e - i >= 2 then Some(e - i - 1)
        else None
  {
    var e := RunEnd(s, i);
    RunEndWord(s, i);
    if e > i && !NotDigitOrDollarAt(s, e) && e - i >= 2 {
      WordCharIsNotDigitOrDollar(s[e - 1]);
    }
  }

  /** At a position where the first regex matches, the mark says whether the candidate is named. */
  lemma EntryMatchMarks(s: string, i: nat, sheet: Sheet)
    requires i < |s|
    ensures EntryMatchAt(s, i).Some? ==>
      (MarkedAfterBoundary(s, i, sheet) <==> Names(sheet, s[i..i + EntryMatchAt(s, i).value]))
    ensures EntryMatchAt(s, i).None? ==> !MarkedAfterBoundary(s, i, sheet)
  {
    BacktrackRun(s, i);
  }

  /** A match of length `n` at `i` covers one mark (at `i`) and `n` characters. */
  lemma InsertFromMatch(s: string, i: nat, n: nat, sheet: Sheet)
    requires i < |s|
    requires EntryMatchAt(s, i) == Some(n)
    ensures i + n <= |s|
    ensures InsertFrom(s, FirstPassMarks(s, sheet), i) ==
      Replacer(sheet, s[i..i + n]) + InsertFrom(s, FirstPassMarks(s, sheet), i + n)
  {
    var m := FirstPassMarks(s, sheet);
    MatchInteriorUnmarked(s, i, n, sheet);
    InsertFromHead(s, m, i, n);
    EntryMatchMarks(s, i, sheet);
    assert m[i] <==> Names(sheet, s[i..i + n]);
  }

  /** Inside a match no position is marked, because each follows a word character. */
  lemma MatchInteriorUnmarked(s: string, i: nat, n: nat, sheet: Sheet)
    requires i < |s|
    requires EntryMatchAt(s, i) == Some(n)
    ensures 1 <= n && i + n <= |s|
    ensures forall k :: i + 1 <= k < i + n ==> !FirstPassMarks(s, sheet)[k]
  {
    var m := FirstPassMarks(s, sheet);
    BacktrackRun(s, i);
    RunEndWord(s, i);
    forall k | i + 1 <= k < i + n ensures !m[k] {
      assert IsWordChar(s[k - 1]);
    }
  }

  /** A marked or unmarked head followed by `n - 1` unmarked positions. */
  lemma InsertFromHead(s: string, m: seq<bool>, i: nat, n: nat)
    requires |m| == |s| && 1 <= n && i + n <= |s|
    requires forall k :: i + 1 <= k < i + n ==> !m[k]
    ensures InsertFrom(s, m, i) == (if m[i] then "$" else "") + s[i..i + n] + InsertFrom(s, m, i + n)
  {
    InsertFromUnmarked(s, m, i + 1, i + n);
    PrefixConsSlice(if m[i] then "$" else "", s, i, i + n, InsertFrom(s, m, i + n));
  }

  /** The first pass inserts `$` exactly at the positions `MarkedAfterBoundary` describes. */
  lemma {:induction false} ReplaceEntriesMarks(s: string, i: nat, sheet: Sheet)
    requires i <= |s|
    ensures ReplaceEntries(s, i, sheet) == InsertFrom(s, FirstPassMarks(s, sheet), i)
    decreases |s| - i
  {
    if i < |s| {
      match EntryMatchAt(s, i)
      case Some(n) =>
        InsertFromMatch(s, i, n, sheet);
        ReplaceEntriesMarks(s, i + n, sheet);
        MatchStep(s, i, n, sheet);
      case None =>
        ReplaceEntriesMarks(s, i + 1, sheet);
        NoMatchStep(s, i, sheet);
    }
  }

  lemma MatchStep(s: string, i: nat, n: nat, sheet: Sheet)
    requires i < |s| && i + n <= |s| && EntryMatchAt(s, i) == Some(n)
    requires ReplaceEntries(s, i + n, sheet) == InsertFrom(s, FirstPassMarks(s, sheet), i + n)
    ensures ReplaceEntries(s, i, sheet) == InsertFrom(s, FirstPassMarks(s, sheet), i)
  {
    ReplaceEntriesAt(s, i, n, sheet);
    InsertFromMatch(s, i, n, sheet);
  }

  lemma ReplaceEntriesAt(s: string, i: nat, n: nat, sheet: Sheet)
    requires i < |s| && i + n <= |s| && EntryMatchAt(s, i) == Some(n)
    ensures ReplaceEntries(s, i, sheet) == Replacer(sheet, s[i..i + n]) + ReplaceEntries(s, i + n, sheet)
  {
    ReplaceEntriesAtMatch(s, i, sheet);
  }

  lemma ReplaceEntriesAtMatch(s: string, i: nat, sheet: Sheet)
    requires i < |s| && EntryMatchAt(s, i).Some?
    ensures var n := EntryMatchAt(s, i).value;
      i + n <= |s| && ReplaceEntries(s, i, sheet) == Replacer(sheet, s[i..i + n]) + ReplaceEntries(s, i + n, sheet)
  {
  }

  lemma NoMatchStep(s: string, i: nat, sheet: Sheet)
    requires i < |s| && EntryMatchAt(s, i).None?
    requires ReplaceEntries(s, i + 1, sheet) == InsertFrom(s, FirstPassMarks(s, sheet), i + 1)
    ensures ReplaceEntries(s, i, sheet) == InsertFrom(s, FirstPassMarks(s, sheet), i)
  {
    EntryMatchMarks(s, i, sheet);
  }

  /** The run at the start is matched by the second regex exactly when an operator follows it. */
  lemma BacktrackAtStartRun(s: string, len: nat)
    requires len <= |s|
    requires forall k :: 0 <= k < len ==> IsWordChar(s[k])
    ensures BacktrackAtStart(s, len) == if 0 < len < |s| && IsOperator(s[len]) then Some(len) else None
    decreases len
  {
    if len > 0 && !(len < |s| && IsOperator(s[len])) {
      BacktrackAtStartRun(s, len - 1);
    }
  }

  /** The first pass leaves the leading run, and the character after it, where they were. */
  lemma FirstPassKeepsLeadingRun(s: string, sheet: Sheet)
    ensures var t := ReplaceEntries(s, 0, sheet); var e := RunEnd(s, 0);
      && t == s[..e] + InsertFrom(s, FirstPassMarks(s, sheet), e)
      && RunEnd(t, 0) == e
      && (e < |s| ==> e < |t| && t[e] == s[e])
  {
    var m1 := FirstPassMarks(s, sheet);
    var t := ReplaceEntries(s, 0, sheet);
    var e := RunEnd(s, 0);
    ReplaceEntriesMarks(s, 0, sheet);
    RunEndWord(s, 0);
    var stop := if e < |s| then e + 1 else e;
    forall k | 0 <= k < stop ensures !m1[k] {
      if 0 < k < e { assert IsWordChar(s[k - 1]); }
    }
    InsertFromUnmarked(s, m1, 0, e);
    InsertFromUnmarked(s, m1, 0, stop);
    assert t[..e] == s[..e];
    RunEndUnique(t, 0, e);
  }

  /** Both passes together insert `$` exactly before the marked positions. */
  lemma BothPassesInsertMarks(s: string, sheet: Sheet)
    ensures ReplaceLeading(ReplaceEntries(s, 0, sheet), sheet) == InsertFrom(s, EntryMarks(s, sheet), 0)
  {
    var m1 := FirstPassMarks(s, sheet);
    var m := EntryMarks(s, sheet);
    var t := ReplaceEntries(s, 0, sheet);
    var e := RunEnd(s, 0);
    FirstPassKeepsLeadingRun(s, sheet);
    RunEndWord(t, 0);
    BacktrackAtStartRun(t, e);
    if 0 < e < |s| && IsOperator(s[e]) {
      LeadingRunMarked(s, sheet);
    } else {
      ReplaceEntriesMarks(s, 0, sheet);
      InsertFromAgree(s, m1, m, 0);
    }
  }

  /** A run of unmarked positions after position 0 is copied after the (optional) mark at 0. */
  lemma InsertFromLeadingRun(s: string, m: seq<bool>, e: nat)
    requires |m| == |s| && 0 < e <= |s|
    requires forall k :: 1 <= k < e ==> !m[k]
    ensures InsertFrom(s, m, 0) == (if m[0] then "$" else "") + s[..e] + InsertFrom(s, m, e)
  {
    InsertFromHead(s, m, 0, e);
    SliceFromZero(s, e);
  }

  lemma LeadingRunMarked(s: string, sheet: Sheet)
    requires var e := RunEnd(s, 0); 0 < e < |s| && IsOperator(s[e])
    ensures var e := RunEnd(s, 0);
      InsertFrom(s, EntryMarks(s, sheet), 0) ==
        Replacer(sheet, s[..e]) + InsertFrom(s, FirstPassMarks(s, sheet), e)
  {
    var m1 := FirstPassMarks(s, sheet);
    var m := EntryMarks(s, sheet);
    var e := RunEnd(s, 0);
    InsertFromAgree(s, m1, m, e);
    InsideRunUnmarked(s, sheet);
    InsertFromLeadingRun(s, m, e);
    assert m[0] == MarkedAtStart(s, sheet);
    var mark := if m[0] then "$" else "";
    assert Replacer(sheet, s[..e]) == mark + s[..e];
  }

  /** No position inside a run other than its first receives a mark. */
  lemma InsideRunUnmarked(s: string, sheet: Sheet)
    ensures forall k :: 1 <= k < RunEnd(s, 0) ==> !EntryMarks(s, sheet)[k]
  {
    var m := EntryMarks(s, sheet);
    RunEndWord(s, 0);
    forall k | 1 <= k < RunEnd(s, 0) ensures !m[k] {
      assert IsWordChar(s[k - 1]);
    }
  }

  /**
   * With the toggle on, a card, and no `st`/`en` prefix, the result is the
   * input with a `$` before exactly the marked positions.
   */
  lemma DetectCardEntryInsertsMarks(config: ChannelConfig, s: string, sheet: Sheet)
    requires config.parseRule.detectCardEntry
    requires !StartsWith(s, "st") && !StartsWith(s, "en")
    ensures DetectCardEntry(config, s, Some(sheet)) == InsertFrom(s, EntryMarks(s, sheet), 0)
  {
    BothPassesInsertMarks(s, sheet);
  }

  /** A `$` only goes before the first character of a run, and never twice into one run. */
  lemma MarkedIsRunStart(s: string, sheet: Sheet, i: nat, j: nat)
    requires i < j < |s|
    requires Marked(s, i, sheet) && Marked(s, j, sheet)
    ensures IsWordChar(s[i]) && (i == 0 || !IsWordChar(s[i - 1]))
    ensures RunEnd(s, i) < j
  {
    RunEndWord(s, i);
    assert !IsWordChar(s[j - 1]);
  }

  /** `力量+10` with an entry `力量` becomes `$力量+10`; `st力量+10` is left alone. */
  lemma DetectCardEntryExample(config: ChannelConfig, sheet: Sheet)
    requires config.parseRule.detectCardEntry
    requires "力量" in sheet.entries
    ensures DetectCardEntry(config, "力量+10", Some(sheet)) == "$力量+10"
    ensures DetectCardEntry(config, "st力量+10", Some(sheet)) == "st力量+10"
  {
    ExampleNotCommand();
    ExampleFirstPass(sheet);
    ExampleLeading(sheet);
    assert StartsWith("st力量+10", "st");
  }

  lemma ExampleNotCommand()
    ensures !StartsWith("力量+10", "st") && !StartsWith("力量+10", "en")
  {
    var s := "力量+10";
    assert s[..2][0] == '力';
  }

  lemma ExampleLeading(sheet: Sheet)
    requires "力量" in sheet.entries
    ensures ReplaceLeading("力量+10", sheet) == "$力量+10"
  {
    var s := "力量+10";
    ExampleLeadingRun();
    assert BacktrackAtStart(s, 2) == Some(2);
    assert s[..2] == "力量";
    assert s[2..] == "+10";
  }

  lemma ExampleLeadingRun()
    ensures RunEnd("力量+10", 0) == 2
  {
    var s := "力量+10";
    assert IsWordChar(s[0]) && IsWordChar(s[1]);
    RunEndUnique(s, 0, 2);
  }

  lemma ExampleFirstPass(sheet: Sheet)
    ensures ReplaceEntries("力量+10", 0, sheet) == "力量+10"
  {
    var s := "力量+10";
    assert ReplaceEntries(s, 3, sheet) == "10" by {
      assert RunEnd(s, 3) == 3;
      assert EntryMatchAt(s, 3) == None;
      assert ReplaceEntries(s, 4, sheet) == "0";
    }
    assert EntryMatchAt(s, 0) == None;
    assert EntryMatchAt(s, 1) == None;
    assert EntryMatchAt(s, 2) == None;
  }
}
