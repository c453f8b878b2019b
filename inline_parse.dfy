/**
 * `naiveParseInlineRolls` of `ChannelConfig` (server/service/config/config.ts):
 * first a capped loop that replaces every `${key}` / `$key` reference with the
 * card's ability expression in parentheses, the entry value, or nothing; then
 * a loop that rewrites the first bracket-free `[[x]]` to `(x)` until none is
 * left. `ENTRY_REGEX` and `INLINE_ROLL_REGEX` are modelled as scanners.
 */
module InlineParse {
  import opened Wrappers
  import opened Text
  import opened Cards
  import opened Config
  import EntryDetect

  // ---------------------------------------------------------------------------
  // ENTRY_REGEX: `\$\{(.*?)\}|\$([a-zA-Z\p{Unified_Ideograph}]+)` with the g flag.

  /** The first `}` from `j` on, provided no line terminator comes before it (the lazy `.*?\}`). */
  function BraceClose(s: string, j: nat): (r: Option<nat>)
    requires j <= |s|
    ensures r.Some? ==> j <= r.value < |s| && s[r.value] == '}'
    decreases |s| - j
  {
    if j == |s| || IsLineTerminator(s[j]) then None
    else if s[j] == '}' then Some(j)
    else BraceClose(s, j + 1)
  }

  /** The `}` found is the first one, and no line terminator comes before it. */
  lemma {:induction false} BraceCloseFirst(s: string, j: nat)
    requires j <= |s| && BraceClose(s, j).Some?
    ensures forall k :: j <= k < BraceClose(s, j).value ==> s[k] != '}' && !IsLineTerminator(s[k])
    decreases |s| - j
  {
    if s[j] != '}' {
      BraceCloseFirst(s, j + 1);
    }
  }

  /** A `}` reached through characters that are neither `}` nor line terminators is the one found. */
  lemma {:induction false} BraceCloseAt(s: string, j: nat, c: nat)
    requires j <= c < |s| && s[c] == '}'
    requires forall k :: j <= k < c ==> s[k] != '}' && !IsLineTerminator(s[k])
    ensures BraceClose(s, j) == Some(c)
    decreases c - j
  {
    if j < c {
      BraceCloseAt(s, j + 1, c);
    }
  }

  /** A reference found at some position: how many characters it spans and which alternative matched. */
  datatype RefMatch = RefMatch(len: nat, braced: bool)

  /** The match of `ENTRY_REGEX` starting at `i`: the braced form is tried first. */
  function EntryRefAt(s: string, i: nat): (r: Option<RefMatch>)
    requires i < |s|
    ensures r.Some? ==> s[i] == '$' && 2 <= r.value.len && i + r.value.len <= |s|
    ensures r.Some? && r.value.braced ==> 3 <= r.value.len
  {
    if s[i] != '$' || i + 1 == |s| then None
    else if s[i + 1] == '{' && BraceClose(s, i + 2).Some? then
      var c := BraceClose(s, i + 2).value;
      Some(RefMatch(c + 1 - i, true))
    else
      var e := EntryDetect.RunEnd(s, i + 1);
      if e > i + 1 then Some(RefMatch(e - i, false)) else None
  }

  /** The captured key of a match at `i`: the text between the braces, or the word run after `$`. */
  function RefKey(s: string, i: nat, m: RefMatch): string
    requires 2 <= m.len && i + m.len <= |s| && (m.braced ==> 3 <= m.len)
  {
    if m.braced then s[i + 2..i + m.len - 1] else s[i + 1..i + m.len]
  }

  /** `ENTRY_REGEX.test(expression)` from `i` on, found by a scan. */
  function HasEntryRefFrom(s: string, i: nat): bool
    requires i <= |s|
    decreases |s| - i
  {
    if i == |s| then false
    else EntryRefAt(s, i).Some? || HasEntryRefFrom(s, i + 1)
  }

  /** The scan finds a reference exactly when the regex matches at some position from `i` on. */
  lemma {:induction false} HasEntryRefFromIff(s: string, i: nat)
    requires i <= |s|
    ensures HasEntryRefFrom(s, i) <==> exists k :: i <= k < |s| && EntryRefAt(s, k).Some?
    decreases |s| - i
  {
    if i < |s| {
      HasEntryRefFromIff(s, i + 1);
    }
  }

  predicate HasEntryRef(s: string) {
    HasEntryRefFrom(s, 0)
  }

  /**
   * The replacement for a key: the ability expression in parentheses when it
   * is non-empty, otherwise the entry value as text, otherwise nothing.
   */
  function Resolve(key: string, card: Option<Sheet>): (r: string)
    ensures r != "" <==>
      card.Some? && ((key in card.value.abilities && card.value.abilities[key] != "") || key in card.value.entries)
    ensures r == "" || (r[0] == '(' && r[|r| - 1] == ')')
      || forall k :: 0 <= k < |r| ==> IsAsciiDigit(r[k]) || (k == 0 && r[k] == '-')
    ensures card.Some? && !(key in card.value.abilities && card.value.abilities[key] != "") && key in card.value.entries ==>
      IntValue(r) == card.value.entries[key].value
  {
    var ability := if card.Some? && key in card.value.abilities then card.value.abilities[key] else "";
    if ability != "" then "(" + ability + ")"
    else if card.Some? && key in card.value.entries then
      var v := card.value.entries[key].value;
      IntToStringDigits(v);
      IntToStringValue(v);
      IntToString(v)
    else ""
  }

  /** Only an ability expression can bring a new `$` into the expression; entry values are numbers. */
  lemma ResolveDollarFree(key: string, card: Option<Sheet>)
    requires !(card.Some? && key in card.value.abilities && card.value.abilities[key] != "")
    ensures '$' !in Resolve(key, card)
  {
    if card.Some? && key in card.value.entries {
      IntToStringDigits(card.value.entries[key].value);
    }
  }

  /** One pass of `expression.replace(ENTRY_REGEX, ...)`, scanning from `i`. */
  function ReplaceEntryRefs(s: string, i: nat, card: Option<Sheet>): string
    requires i <= |s|
    decreases |s| - i
  {
    if i == |s| then []
    else match EntryRefAt(s, i)
      case Some(m) => Resolve(RefKey(s, i, m), card) + ReplaceEntryRefs(s, i + m.len, card)
      case None => [s[i]] + ReplaceEntryRefs(s, i + 1, card)
  }

  /**
   * The `while (ENTRY_REGEX.test(...))` loop with at most `budget` more passes:
   * it stops before its budget is spent only once no reference is left.
   */
  function EntryPasses(s: string, card: Option<Sheet>, budget: nat): (r: string)
    ensures !HasEntryRef(r) || r == Passes(s, card, budget)
    decreases budget
  {
    if budget == 0 || !HasEntryRef(s) then s
    else EntryPasses(ReplaceEntryRefs(s, 0, card), card, budget - 1)
  }

  /** `n` passes, whether or not references remain. */
  function Passes(s: string, card: Option<Sheet>, n: nat): string
    decreases n
  {
    if n == 0 then s else Passes(ReplaceEntryRefs(s, 0, card), card, n - 1)
  }

  /** Positions `lo` up to `hi` of `s` hold no `$`. */
  predicate DollarFreeRange(s: string, lo: nat, hi: nat)
    requires lo <= hi <= |s|
  {
    forall k :: lo <= k < hi ==> s[k] != '$'
  }

  /** Text without `$` is copied unchanged by a pass. */
  lemma {:induction false} DollarFreeCopied(s: string, i: nat, j: nat, card: Option<Sheet>)
    requires i <= j <= |s|
    requires DollarFreeRange(s, i, j)
    ensures ReplaceEntryRefs(s, i, card) == s[i..j] + ReplaceEntryRefs(s, j, card)
    decreases j - i
  {
    if i < j {
      CopiedStep(s, i, card);
      DollarFreeCopied(s, i + 1, j, card);
      ConsSlice(s, i, j, ReplaceEntryRefs(s, j, card));
    }
  }

  /** A character other than `$` starts no reference and is copied. */
  lemma CopiedStep(s: string, i: nat, card: Option<Sheet>)
    requires i < |s| && s[i] != '$'
    ensures ReplaceEntryRefs(s, i, card) == [s[i]] + ReplaceEntryRefs(s, i + 1, card)
  {
  }

  /** A reference matched at `i` is replaced by what its key resolves to. */
  lemma ReplacedAtMatch(s: string, i: nat, card: Option<Sheet>)
    requires i < |s| && EntryRefAt(s, i).Some?
    ensures var m := EntryRefAt(s, i).value;
      ReplaceEntryRefs(s, i, card) == Resolve(RefKey(s, i, m), card) + ReplaceEntryRefs(s, i + m.len, card)
  {
  }

  lemma ReplacedAtEnd(s: string, card: Option<Sheet>)
    ensures ReplaceEntryRefs(s, |s|, card) == []
  {
  }

  /** An expression without `$` has no reference and is returned as it is. */
  lemma EntryPassesDollarFree(s: string, card: Option<Sheet>, budget: nat)
    requires '$' !in s
    ensures !HasEntryRef(s)
    ensures EntryPasses(s, card, budget) == s
  {
    HasEntryRefFromIff(s, 0);
  }

  /** The text of a reference: `${key}` or `$key`. */
  function RefText(key: string, braced: bool): string {
    if braced then "${" + key + "}" else "$" + key
  }

  /** A reference as the regex reads it: a braced key without `}` or line breaks, or a bare word run that ends where the reference does. */
  predicate WellFormedRef(key: string, braced: bool, after: string) {
    if braced then forall k :: 0 <= k < |key| ==> key[k] != '}' && !IsLineTerminator(key[k])
    else |key| > 0 && (forall k :: 0 <= k < |key| ==> IsWordChar(key[k])) && (after == [] || !IsWordChar(after[0]))
  }

  /** The regex matches a well-formed reference where it starts, and reads its key. */
  lemma ReferenceMatched(a: string, key: string, braced: bool, b: string, card: Option<Sheet>)
    requires WellFormedRef(key, braced, b)
    ensures var s := a + RefText(key, braced) + b;
      && |a| < |s| && EntryRefAt(s, |a|).Some? && EntryRefAt(s, |a|).value.len == |RefText(key, braced)|
      && Resolve(RefKey(s, |a|, EntryRefAt(s, |a|).value), card) == Resolve(key, card)
  {
    if braced {
      BracedMatched(a, key, b);
    } else {
      BareMatched(a, key, b);
    }
  }

  lemma BracedMatched(a: string, key: string, b: string)
    requires forall k :: 0 <= k < |key| ==> key[k] != '}' && !IsLineTerminator(key[k])
    ensures var s := a + ("${" + key + "}") + b;
      && |a| < |s| && EntryRefAt(s, |a|).Some? && EntryRefAt(s, |a|).value.len == |key| + 3
      && RefKey(s, |a|, EntryRefAt(s, |a|).value) == key
  {
    var s := a + ("${" + key + "}") + b;
    var i := |a|;
    assert s[i] == '$' && s[i + 1] == '{';
    forall k | i + 2 <= k < i + 2 + |key| ensures s[k] != '}' && !IsLineTerminator(s[k]) {
      assert s[k] == key[k - i - 2];
    }
    assert s[i + 2 + |key|] == '}';
    BraceCloseAt(s, i + 2, i + 2 + |key|);
    assert s[i + 2..i + 2 + |key|] == key;
  }

  lemma BareMatched(a: string, key: string, b: string)
    requires |key| > 0 && forall k :: 0 <= k < |key| ==> IsWordChar(key[k])
    requires b == [] || !IsWordChar(b[0])
    ensures var s := a + ("$" + key) + b;
      && |a| < |s| && EntryRefAt(s, |a|).Some? && EntryRefAt(s, |a|).value.len == |key| + 1
      && RefKey(s, |a|, EntryRefAt(s, |a|).value) == key
  {
    var s := a + ("$" + key) + b;
    var i := |a|;
    assert s[i] == '$' && s[i + 1] == key[0];
    forall k | i + 1 <= k < i + 1 + |key| ensures IsWordChar(s[k]) {
      assert s[k] == key[k - i - 1];
    }
    assert i + 1 + |key| == |s| || s[i + 1 + |key|] == b[0];
    EntryDetect.RunEndUnique(s, i + 1, i + 1 + |key|);
    assert s[i + 1..i + 1 + |key|] == key;
  }

  /** How `a + ref + b` divides: its outer parts are `a` and `b`, and are `$`-free when those are. */
  lemma SplitAround(a: string, ref: string, b: string)
    ensures var s := a + ref + b;
      && s[0..|a|] == a && s[|a| + |ref|..|s|] == b
      && ('$' !in a ==> DollarFreeRange(s, 0, |a|))
      && ('$' !in b ==> DollarFreeRange(s, |a| + |ref|, |s|))
  {
    var s := a + ref + b;
    assert forall k :: 0 <= k < |a| ==> s[k] == a[k];
    assert forall k :: |a| + |ref| <= k < |s| ==> s[k] == b[k - |a| - |ref|];
  }

  /** One reference between `$`-free text is replaced by what its key resolves to, and nothing else changes. */
  lemma OneReferenceResolved(a: string, key: string, braced: bool, b: string, card: Option<Sheet>)
    requires '$' !in a && '$' !in b
    requires WellFormedRef(key, braced, b)
    ensures ReplaceEntryRefs(a + RefText(key, braced) + b, 0, card) == a + Resolve(key, card) + b
  {
    var ref := RefText(key, braced);
    var s := a + ref + b;
    ReferenceMatched(a, key, braced, b, card);
    SplitAround(a, ref, b);
    var m := EntryRefAt(s, |a|).value;
    DollarFreeCopied(s, 0, |a|, card);
    ReplacedAtMatch(s, |a|, card);
    DollarFreeCopied(s, |a| + m.len, |s|, card);
    ReplacedAtEnd(s, card);
    SpliceChain(ReplaceEntryRefs(s, 0, card), s[0..|a|], ReplaceEntryRefs(s, |a|, card),
                Resolve(RefKey(s, |a|, m), card), ReplaceEntryRefs(s, |a| + m.len, card),
                s[|a| + m.len..|s|], ReplaceEntryRefs(s, |s|, card), a, Resolve(key, card), b);
  }

  lemma SpliceChain(x0: string, p: string, x1: string, v1: string, x2: string, q: string, e: string,
                    a: string, v: string, b: string)
    requires x0 == p + x1 && x1 == v1 + x2 && x2 == q + e && e == []
    requires p == a && v1 == v && q == b
    ensures x0 == a + v + b
  {
  }

  /** A key the card does not name resolves to nothing; an entry of value 0 resolves to `0`. */
  lemma ResolveExamples(sheet: Sheet)
    requires "db" !in sheet.abilities && "db" !in sheet.entries
    requires "san" !in sheet.abilities && "san" in sheet.entries && sheet.entries["san"].value == 0
    ensures Resolve("db", Some(sheet)) == ""
    ensures Resolve("san", Some(sheet)) == "0"
  {
  }

  // ---------------------------------------------------------------------------
  // The cap: an ability that refers to itself.

  function Repeat(c: char, n: nat): (r: string)
    ensures |r| == n
  {
    seq(n, _ => c)
  }

  /** The reference `$x` inside `n` pairs of parentheses. */
  function Wrapped(n: nat): string {
    Repeat('(', n) + RefText("x", false) + Repeat(')', n)
  }

  lemma WrappedText(n: nat)
    ensures Wrapped(n) == Repeat('(', n) + "$x" + Repeat(')', n)
  {
    assert RefText("x", false) == "$x";
  }

  lemma WrappedHasRef(n: nat)
    ensures HasEntryRef(Wrapped(n))
  {
    var w := Wrapped(n);
    assert EntryRefAt(w, n).Some? by {
      assert w[n] == '$' && w[n + 1] == 'x';
    }
    HasEntryRefFromIff(w, 0);
  }

  /** The parentheses around the reference hold no `$`, and the reference ends where they start. */
  lemma WrappedParts(n: nat)
    ensures '$' !in Repeat('(', n) && '$' !in Repeat(')', n)
    ensures WellFormedRef("x", false, Repeat(')', n))
  {
  }

  /** Replacing the reference by `($x)` gives one more pair of parentheses. */
  lemma WrappedGrows(sheet: Sheet, n: nat)
    requires "x" in sheet.abilities && sheet.abilities["x"] == "$x"
    ensures Repeat('(', n) + Resolve("x", Some(sheet)) + Repeat(')', n) == Wrapped(n + 1)
  {
    assert Resolve("x", Some(sheet)) == "(" + "$x" + ")";
    assert Repeat('(', n + 1) == Repeat('(', n) + "(";
    assert Repeat(')', n + 1) == ")" + Repeat(')', n);
    WrappedText(n + 1);
  }

  lemma WrappedPass(sheet: Sheet, n: nat)
    requires "x" in sheet.abilities && sheet.abilities["x"] == "$x"
    ensures ReplaceEntryRefs(Wrapped(n), 0, Some(sheet)) == Wrapped(n + 1)
  {
    var open, close := Repeat('(', n), Repeat(')', n);
    WrappedParts(n);
    OneReferenceResolved(open, "x", false, close, Some(sheet));
    WrappedGrows(sheet, n);
    Trans(ReplaceEntryRefs(Wrapped(n), 0, Some(sheet)), open + Resolve("x", Some(sheet)) + close, Wrapped(n + 1));
  }

  lemma Trans(x: string, y: string, z: string)
    requires x == y && y == z
    ensures x == z
  {
  }

  /** One pass of the loop, while a reference is left. */
  lemma EntryPassesStep(s: string, card: Option<Sheet>, budget: nat)
    requires budget > 0 && HasEntryRef(s)
    ensures EntryPasses(s, card, budget) == EntryPasses(ReplaceEntryRefs(s, 0, card), card, budget - 1)
  {
  }

  /** The loop ends when no reference is left or no pass is left. */
  lemma EntryPassesDone(s: string, card: Option<Sheet>, budget: nat)
    requires budget == 0 || !HasEntryRef(s)
    ensures EntryPasses(s, card, budget) == s
  {
    HasEntryRefFromIff(s, 0);
  }

  lemma {:induction false} WrappedPasses(sheet: Sheet, n: nat, budget: nat)
    requires "x" in sheet.abilities && sheet.abilities["x"] == "$x"
    ensures EntryPasses(Wrapped(n), Some(sheet), budget) == Wrapped(n + budget)
    decreases budget
  {
    if budget > 0 {
      WrappedHasRef(n);
      EntryPassesStep(Wrapped(n), Some(sheet), budget);
      WrappedPass(sheet, n);
      WrappedPasses(sheet, n + 1, budget - 1);
    }
  }

  /**
   * With an ability `x` whose expression is `$x`, the loop stops after its
   * hundredth pass with the reference still present.
   */
  lemma SelfReferenceHitsCap(sheet: Sheet)
    requires "x" in sheet.abilities && sheet.abilities["x"] == "$x"
    ensures EntryPasses("$x", Some(sheet), 100) == Repeat('(', 100) + "$x" + Repeat(')', 100)
    ensures HasEntryRef(EntryPasses("$x", Some(sheet), 100))
  {
    assert Wrapped(0) == "$x" by {
      WrappedText(0);
    }
    WrappedPasses(sheet, 0, 100);
    WrappedText(100);
    WrappedHasRef(100);
  }

  // ---------------------------------------------------------------------------
  // INLINE_ROLL_REGEX: `\[\[([^[\]]+)]]`, first match only.

  predicate IsBracket(c: char) {
    c == '[' || c == ']'
  }

  /** The end of the run of non-bracket characters from `j`. */
  function BracketFreeEnd(s: string, j: nat): (e: nat)
    requires j <= |s|
    ensures j <= e <= |s|
    decreases |s| - j
  {
    if j == |s| || IsBracket(s[j]) then j else BracketFreeEnd(s, j + 1)
  }

  /** The run holds no bracket and stops at one, or at the end. */
  lemma {:induction false} BracketFreeEndStops(s: string, j: nat)
    requires j <= |s|
    ensures forall k :: j <= k < BracketFreeEnd(s, j) ==> !IsBracket(s[k])
    ensures BracketFreeEnd(s, j) == |s| || IsBracket(s[BracketFreeEnd(s, j)])
    decreases |s| - j
  {
    if j < |s| && !IsBracket(s[j]) {
      BracketFreeEndStops(s, j + 1);
    }
  }

  /**
   * The match at `i`, given as the index of its closing `]]`. Giving back
   * characters of the run never helps, since the run stops at the first bracket.
   */
  function InlineMatchAt(s: string, i: nat): (r: Option<nat>)
    requires i < |s|
    ensures r.Some? ==> i + 2 < r.value && r.value + 2 <= |s|
    ensures r.Some? ==> s[i] == '[' && s[i + 1] == '[' && s[r.value] == ']' && s[r.value + 1] == ']'
  {
    if i + 1 < |s| && s[i] == '[' && s[i + 1] == '[' then
      var e := BracketFreeEnd(s, i + 2);
      if e > i + 2 && e + 1 < |s| && s[e] == ']' && s[e + 1] == ']' then Some(e) else None
    else None
  }

  /** The notation between the brackets of a match holds no bracket. */
  lemma InlineMatchInterior(s: string, i: nat)
    requires i < |s| && InlineMatchAt(s, i).Some?
    ensures forall k :: i + 2 <= k < InlineMatchAt(s, i).value ==> !IsBracket(s[k])
  {
    BracketFreeEndStops(s, i + 2);
  }

  /** The leftmost match from `i` on: its start and the index of its closing `]]`. */
  function FirstInline(s: string, i: nat): (r: Option<(nat, nat)>)
    requires i <= |s|
    ensures r.Some? ==> i <= r.value.0 < |s| && InlineMatchAt(s, r.value.0) == Some(r.value.1)
    decreases |s| - i
  {
    if i == |s| then None
    else match InlineMatchAt(s, i)
      case Some(e) => Some((i, e))
      case None => FirstInline(s, i + 1)
  }

  /** No match starts before the one found, and none at all when nothing is found. */
  lemma {:induction false} FirstInlineLeftmost(s: string, i: nat)
    requires i <= |s|
    ensures FirstInline(s, i).Some? ==> forall k :: i <= k < FirstInline(s, i).value.0 ==> InlineMatchAt(s, k).None?
    ensures FirstInline(s, i).None? ==> forall k :: i <= k < |s| ==> InlineMatchAt(s, k).None?
    decreases |s| - i
  {
    if i < |s| && InlineMatchAt(s, i).None? {
      FirstInlineLeftmost(s, i + 1);
    }
  }

  predicate HasInlineRoll(s: string) {
    FirstInline(s, 0).Some?
  }

  /** `expression.replace(INLINE_ROLL_REGEX, (_, notation) => `(${notation})`)` */
  function ReplaceFirstInline(s: string): (r: string)
    requires HasInlineRoll(s)
    ensures |r| == |s| - 2
  {
    var m := FirstInline(s, 0).value;
    Rewrap(s, m.0, m.1)
  }

  /** The text with `[[n]]` between `p` and `e + 2` replaced by `(n)`. */
  function Rewrap(s: string, p: nat, e: nat): (r: string)
    requires p + 2 <= e && e + 2 <= |s|
    ensures |r| == |s| - 2
  {
    s[..p] + ("(" + s[p + 2..e] + ")") + s[e + 2..]
  }

  /** Each rewrite removes two `[` and two `]`, since the notation it unwraps has none. */
  lemma ReplaceFirstInlineCounts(s: string)
    requires HasInlineRoll(s)
    ensures Count(ReplaceFirstInline(s), '[') == Count(s, '[') - 2
    ensures Count(ReplaceFirstInline(s), ']') == Count(s, ']') - 2
  {
    var m := FirstInline(s, 0).value;
    InlineReplacedAt(s);
    InlineMatchInterior(s, m.0);
    RewrapCounts(s, m.0, m.1);
  }

  lemma RewrapCounts(s: string, p: nat, e: nat)
    requires p + 2 <= e && e + 2 <= |s|
    requires s[p] == '[' && s[p + 1] == '[' && s[e] == ']' && s[e + 1] == ']'
    requires forall k :: p + 2 <= k < e ==> !IsBracket(s[k])
    ensures Count(Rewrap(s, p, e), '[') == Count(s, '[') - 2
    ensures Count(Rewrap(s, p, e), ']') == Count(s, ']') - 2
  {
    SplitAtMatch(s, p, e);
    NoBracketSliceCount(s, p + 2, e);
    SpliceCounts(s[..p], s[p + 2..e], s[e + 2..]);
  }

  lemma SplitAtMatch(s: string, p: nat, e: nat)
    requires p + 2 <= e && e + 2 <= |s|
    requires s[p] == '[' && s[p + 1] == '[' && s[e] == ']' && s[e + 1] == ']'
    ensures s == s[..p] + ("[[" + s[p + 2..e] + "]]") + s[e + 2..]
  {
    assert s[p..p + 2] == "[[" && s[e..e + 2] == "]]";
    assert s == s[..p] + s[p..p + 2] + s[p + 2..e] + s[e..e + 2] + s[e + 2..];
  }

  /** Replacing `[[n]]` by `(n)` removes two characters, two `[` and two `]` when `n` has no bracket. */
  lemma SpliceCounts(x: string, n: string, y: string)
    requires Count(n, '[') == 0 && Count(n, ']') == 0
    ensures var s, r := x + ("[[" + n + "]]") + y, x + ("(" + n + ")") + y;
      |r| == |s| - 2 && Count(r, '[') == Count(s, '[') - 2 && Count(r, ']') == Count(s, ']') - 2
  {
    SpliceCount(x, "[[", n, "]]", y, '[');
    SpliceCount(x, "(", n, ")", y, '[');
    SpliceCount(x, "[[", n, "]]", y, ']');
    SpliceCount(x, "(", n, ")", y, ']');
    assert Count("[[", '[') == 2 && Count("]]", '[') == 0 && Count("(", '[') == 0 && Count(")", '[') == 0;
    assert Count("[[", ']') == 0 && Count("]]", ']') == 2 && Count("(", ']') == 0 && Count(")", ']') == 0;
  }

  lemma SpliceCount(x: string, open: string, n: string, close: string, y: string, c: char)
    ensures Count(x + (open + n + close) + y, c) == Count(x, c) + Count(open, c) + Count(n, c) + Count(close, c) + Count(y, c)
  {
    CountAppend(x + (open + n + close), y, c);
    CountAppend(x, open + n + close, c);
    CountAppend(open + n, close, c);
    CountAppend(open, n, c);
  }

  lemma NoBracketSliceCount(s: string, lo: nat, hi: nat)
    requires lo <= hi <= |s|
    requires forall k :: lo <= k < hi ==> !IsBracket(s[k])
    ensures Count(s[lo..hi], '[') == 0 && Count(s[lo..hi], ']') == 0
  {
    var t := s[lo..hi];
    forall k | 0 <= k < |t| ensures !IsBracket(t[k]) {
      assert t[k] == s[lo + k];
    }
    NoBracketCount(t);
  }

  lemma NoBracketCount(t: string)
    requires forall k :: 0 <= k < |t| ==> !IsBracket(t[k])
    ensures Count(t, '[') == 0 && Count(t, ']') == 0
  {
    if t != [] {
      NoBracketCount(t[1..]);
    }
  }

  /** The `while (INLINE_ROLL_REGEX.test(...))` loop: rewrite the first match until none is left. */
  function InlineFix(s: string): (r: string)
    ensures !HasInlineRoll(r)
    ensures Count(r, '[') <= Count(s, '[')
    decreases |s|
  {
    if HasInlineRoll(s) then
      ReplaceFirstInlineCounts(s);
      InlineFix(ReplaceFirstInline(s))
    else s
  }

  /** Without a `[` there is nothing left for the inline loop. */
  lemma NoInlineWithoutBracket(u: string)
    requires '[' !in u
    ensures !HasInlineRoll(u)
  {
    forall k | 0 <= k < |u| ensures InlineMatchAt(u, k).None? {
      assert u[k] != '[';
    }
  }

  /** The rewrite of the leftmost match. */
  lemma InlineReplacedAt(s: string)
    requires HasInlineRoll(s)
    ensures var m := FirstInline(s, 0).value;
      m.0 + 2 < m.1 && m.1 + 2 <= |s| && ReplaceFirstInline(s) == Rewrap(s, m.0, m.1)
  {
  }

  /** A match at `p`, its closing `]]` at `e`: the rewrite is `w` when the pieces around the notation make `w`. */
  lemma InlineRewritesTo(s: string, p: nat, e: nat, x: string, n: string, y: string, w: string)
    requires FirstInline(s, 0) == Some((p, e))
    requires p + 2 <= e && e + 2 <= |s|
    requires s[..p] == x && s[p + 2..e] == n && s[e + 2..] == y
    requires x + ("(" + n + ")") + y == w
    ensures HasInlineRoll(s) && ReplaceFirstInline(s) == w
  {
    InlineReplacedAt(s);
    SpliceParens(s[..p], x, s[p + 2..e], n, s[e + 2..], y, w);
  }

  lemma SpliceParens(a1: string, a2: string, b1: string, b2: string, c1: string, c2: string, w: string)
    requires a1 == a2 && b1 == b2 && c1 == c2 && a2 + ("(" + b2 + ")") + c2 == w
    ensures a1 + ("(" + b1 + ")") + c1 == w
  {
  }

  lemma InnerRollFirst()
    ensures HasInlineRoll("[[1+[[2]]]]") && ReplaceFirstInline("[[1+[[2]]]]") == "[[1+(2)]]"
  {
    InnerRollFound();
    InnerRollPieces();
    InlineRewritesTo("[[1+[[2]]]]", 4, 7, "[[1+", "2", "]]", "[[1+(2)]]");
  }

  /** The outer `[[` does not match, because a bracket follows it before any `]]`; the inner one does. */
  lemma InnerRollFound()
    ensures FirstInline("[[1+[[2]]]]", 0) == Some((4, 7))
  {
    var s := "[[1+[[2]]]]";
    assert InlineMatchAt(s, 0) == None by {
      assert BracketFreeEnd(s, 2) == 4;
    }
    assert InlineMatchAt(s, 4) == Some(7) by {
      assert BracketFreeEnd(s, 6) == 7;
    }
    assert FirstInline(s, 4) == Some((4, 7));
    assert FirstInline(s, 2) == Some((4, 7)) by {
      assert InlineMatchAt(s, 2) == None && InlineMatchAt(s, 3) == None;
    }
    assert InlineMatchAt(s, 1) == None;
  }

  lemma InnerRollPieces()
    ensures var s := "[[1+[[2]]]]"; s[..4] == "[[1+" && s[6..7] == "2" && s[9..] == "]]"
    ensures "[[1+" + ("(" + "2" + ")") + "]]" == "[[1+(2)]]"
  {
  }

  lemma OuterRollNext()
    ensures HasInlineRoll("[[1+(2)]]") && ReplaceFirstInline("[[1+(2)]]") == "(1+(2))"
  {
    OuterRollFound();
    OuterRollPieces();
    InlineRewritesTo("[[1+(2)]]", 0, 7, "", "1+(2)", "", "(1+(2))");
  }

  lemma OuterRollFound()
    ensures FirstInline("[[1+(2)]]", 0) == Some((0, 7))
  {
    var t := "[[1+(2)]]";
    assert InlineMatchAt(t, 0) == Some(7) by {
      assert BracketFreeEnd(t, 2) == 7;
    }
  }

  lemma OuterRollPieces()
    ensures var t := "[[1+(2)]]"; t[..0] == "" && t[2..7] == "1+(2)" && t[9..] == ""
    ensures "" + ("(" + "1+(2)" + ")") + "" == "(1+(2))"
  {
  }

  lemma SingleRoll()
    ensures HasInlineRoll("[[1d3+1]]") && ReplaceFirstInline("[[1d3+1]]") == "(1d3+1)"
  {
    SingleRollFound();
    SingleRollPieces();
    InlineRewritesTo("[[1d3+1]]", 0, 7, "", "1d3+1", "", "(1d3+1)");
  }

  lemma SingleRollFound()
    ensures FirstInline("[[1d3+1]]", 0) == Some((0, 7))
  {
    var v := "[[1d3+1]]";
    assert InlineMatchAt(v, 0) == Some(7) by {
      assert BracketFreeEnd(v, 2) == 7;
    }
  }

  lemma SingleRollPieces()
    ensures var v := "[[1d3+1]]"; v[..0] == "" && v[2..7] == "1d3+1" && v[9..] == ""
    ensures "" + ("(" + "1d3+1" + ")") + "" == "(1d3+1)"
  {
  }

  lemma NoOpenBracket()
    ensures '[' !in "(1+(2))"
  {
  }

  /** A rewrite step of the loop. */
  lemma InlineFixStep(s: string, t: string)
    requires HasInlineRoll(s) && ReplaceFirstInline(s) == t
    ensures InlineFix(s) == InlineFix(t)
  {
  }

  lemma InlineFixDone(s: string)
    requires '[' !in s
    ensures InlineFix(s) == s
  {
    NoInlineWithoutBracket(s);
  }

  /** `[[1d3+1]]` becomes `(1d3+1)`. */
  lemma InlineFixExample()
    ensures InlineFix("[[1d3+1]]") == "(1d3+1)"
  {
    SingleRoll();
    NoOpenBracketSingle();
    InlineFixOneStep("[[1d3+1]]", "(1d3+1)");
  }

  lemma NoOpenBracketSingle()
    ensures '[' !in "(1d3+1)"
  {
  }

  lemma InlineFixOneStep(s: string, t: string)
    requires HasInlineRoll(s) && ReplaceFirstInline(s) == t
    requires '[' !in t
    ensures InlineFix(s) == t
  {
    InlineFixStep(s, t);
    InlineFixDone(t);
  }

  /** The innermost roll is rewritten first, and nested rolls are flattened one by one. */
  lemma InlineFixNestedExample()
    ensures InlineFix("[[1+[[2]]]]") == "(1+(2))"
  {
    var s := "[[1+[[2]]]]";
    NoOpenBracket();
    InnerRollFirst();
    OuterRollNext();
    InlineFixTwoSteps(s, "[[1+(2)]]", "(1+(2))");
  }

  lemma InlineFixTwoSteps(s: string, t: string, u: string)
    requires HasInlineRoll(s) && ReplaceFirstInline(s) == t
    requires HasInlineRoll(t) && ReplaceFirstInline(t) == u
    requires '[' !in u
    ensures InlineFix(s) == u
  {
    InlineFixStep(s, t);
    InlineFixStep(t, u);
    InlineFixDone(u);
  }

  // ---------------------------------------------------------------------------

  /** `naiveParseInlineRolls(expression, card)` */
  method NaiveParseInlineRolls(config: ChannelConfig, expression: string, card: Option<Sheet>) returns (r: string)
    ensures !config.parseRule.naiveInlineParseRule ==> r == expression
    ensures config.parseRule.naiveInlineParseRule ==> r == InlineFix(EntryPasses(expression, card, 100))
  {
    r := expression;
    if config.parseRule.naiveInlineParseRule {
      r := ExpandEntryRefs(expression, card);
      r := FlattenInlineRolls(r);
    }
  }

  /** The first loop: replace references while any is left, for at most 100 passes. */
  method ExpandEntryRefs(expression: string, card: Option<Sheet>) returns (r: string)
    ensures r == EntryPasses(expression, card, 100)
  {
    r := expression;
    var depth := 0;
    ghost var budget: nat := 100;
    while HasEntryRef(r)
      invariant 0 <= depth < 100 && depth + budget == 100
      invariant EntryPasses(r, card, budget) == EntryPasses(expression, card, 100)
      decreases budget
    {
      EntryPassesStep(r, card, budget);
      var next := ReplaceEntryRefs(r, 0, card);
      r := next;
      depth := depth + 1;
      budget := budget - 1;
      if depth > 99 {
        EntryPassesDone(r, card, budget);
        return;
      }
    }
    EntryPassesDone(r, card, budget);
  }

  /** The second loop: rewrite the first inline roll while one is left. */
  method FlattenInlineRolls(s: string) returns (r: string)
    ensures r == InlineFix(s)
  {
    r := s;
    while HasInlineRoll(r)
      invariant InlineFix(r) == InlineFix(s)
      decreases |r|
    {
      r := ReplaceFirstInline(r);
    }
  }
}
