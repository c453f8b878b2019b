/**
 * The normalizing rewrites of `ChannelConfig` (server/service/config/config.ts):
 * case folding that keeps the `F` of Fudge dice, and the substitution of bare
 * default-roll tokens by the channel's default roll.
 */
module Normalize {
  import opened Wrappers
  import opened Text
  import opened Cards
  import opened Config

  // ---------------------------------------------------------------------------
  // convertCase

  /** The original has the two characters `dF` at `i`. */
  predicate IsFudgeAt(s: string, i: int) {
    0 <= i && i + 1 < |s| && s[i] == 'd' && s[i + 1] == 'F'
  }

  /** `expression.matchAll(/dF/g)` indexes, scanning from `i`. */
  function FudgeIndexes(s: string, i: nat): (r: seq<nat>)
    ensures forall k: nat :: k in r <==> i <= k && IsFudgeAt(s, k)
    decreases |s| - i
  {
    if i + 1 >= |s| then []
    else if IsFudgeAt(s, i) then [i] + FudgeIndexes(s, i + 2)
    else FudgeIndexes(s, i + 1)
  }

  /**
   * The folded expression, position by position: the character after an
   * original `dF` is `F`, every other character is lower-cased.
   */
  function CaseConverted(s: string): (r: string)
    ensures |r| == |s|
  {
    seq(|s|, k requires 0 <= k < |s| => if IsFudgeAt(s, k - 1) then 'F' else Lower(s[k]))
  }

  /** `convertCase`: lower-cases the expression, then writes `F` back after every original `dF`. */
  method ConvertCase(config: ChannelConfig, expression: string) returns (r: string)
    ensures r == if config.parseRule.convertCase then CaseConverted(expression) else expression
  {
    if !config.parseRule.convertCase {
      return expression;
    }
    var indexes := FudgeIndexes(expression, 0);
    var result := LowerString(expression);
    if |indexes| == 0 {
      forall k | 0 <= k < |expression| ensures !IsFudgeAt(expression, k) {
        assert k as nat !in indexes;
      }
      return result;
    }
    var arr := new char[|result|](k requires 0 <= k < |result| => result[k]);
    var j := 0;
    while j < |indexes|
      invariant 0 <= j <= |indexes|
      invariant arr.Length == |expression|
      invariant forall k :: 0 <= k < arr.Length ==>
        arr[k] == if k - 1 in indexes[..j] then 'F' else result[k]
    {
      assert indexes[j] in indexes;
      arr[indexes[j] + 1] := 'F';
      j := j + 1;
    }
    assert indexes[..j] == indexes;
    r := arr[..];
  }

  /** Folding an already folded expression changes nothing. */
  lemma CaseConvertedIdempotent(s: string)
    ensures CaseConverted(CaseConverted(s)) == CaseConverted(s)
  {
    var t := CaseConverted(s);
    forall k | 0 <= k < |t| ensures CaseConverted(t)[k] == t[k] {
      if IsFudgeAt(t, k - 1) {
        // `F` never comes out of Lower, so t[k] was written back and s has `dF` at k - 1
        assert IsFudgeAt(s, k - 1);
      }
    }
  }

  /** An uppercase `F` after an original `dF` survives; everything else is lower case. */
  lemma CaseConvertedExample()
    ensures CaseConverted("1dF+AB") == "1dF+ab"
    ensures CaseConverted("1DF") == "1df"
  {
    assert IsFudgeAt("1dF+AB", 1);
  }

  // ---------------------------------------------------------------------------
  // detectDefaultRollCalculation

  // `[+\-*/)}]`: the lookahead set of the default-roll regex (it differs from the lookbehind set).
  predicate IsRightBoundary(c: char) {
    c == '+' || c == '-' || c == '*' || c == '/' || c == ')' || c == '}'
  }

  // `(?<=^|[+\-*/({])` at position `i` of the original expression.
  predicate BoundedBefore(s: string, i: nat)
    requires i <= |s|
  {
    i == 0 || IsLeftBoundary(s[i - 1])
  }

  // `(?=$|[+\-*/)}])` at position `j`.
  predicate BoundedAfter(s: string, j: nat)
    requires j <= |s|
  {
    j == |s| || IsRightBoundary(s[j])
  }

  /** `/^(r|d|rd)$/`: the whole expression is a bare default roll. */
  predicate IsBareDefaultRoll(s: string) {
    s == "r" || s == "d" || s == "rd"
  }

  /**
   * The length matched by `MAYBE_INCLUDE_DEFAULT_ROLL_REGEX` at `i`, trying the
   * alternatives `r`, `d`, `rd` in order; 0 for no match.
   */
  function DefaultRollMatchAt(s: string, i: nat): (n: nat)
    requires i <= |s|
    ensures n <= |s| - i
  {
    if i == |s| || !BoundedBefore(s, i) then 0
    else if s[i] == 'r' && BoundedAfter(s, i + 1) then 1
    else if s[i] == 'd' && BoundedAfter(s, i + 1) then 1
    else if i + 2 <= |s| && s[i] == 'r' && s[i + 1] == 'd' && BoundedAfter(s, i + 2) then 2
    else 0
  }

  /** The global `replace` from position `i`: every match becomes `roll`, other characters are copied. */
  function ReplaceDefaultRolls(s: string, i: nat, roll: string): string
    requires i <= |s|
    decreases |s| - i
  {
    if i == |s| then []
    else
      var n := DefaultRollMatchAt(s, i);
      if n > 0 then roll + ReplaceDefaultRolls(s, i + n, roll)
      else [s[i]] + ReplaceDefaultRolls(s, i + 1, roll)
  }

  /** `detectDefaultRollCalculation(expression, card)` */
  function DetectDefaultRollCalculation(config: ChannelConfig, expression: string, card: Option<Sheet>): (r: string)
    ensures !config.parseRule.detectDefaultRoll ==> r == expression
    ensures IsBareDefaultRoll(expression) ==> r == expression
  {
    if !config.parseRule.detectDefaultRoll then expression
    else if IsBareDefaultRoll(expression) then expression
    else ReplaceDefaultRolls(expression, 0, DefaultRoll(config, card))
  }

  // The reference description: the set of standalone tokens, independent of the scan.

  /** `s[i..j]` is `r`, `d` or `rd`, with a boundary on each side. */
  predicate IsToken(s: string, i: int, j: int) {
    && 0 <= i < j <= |s|
    && (s[i..j] == "r" || s[i..j] == "d" || s[i..j] == "rd")
    && BoundedBefore(s, i) && BoundedAfter(s, j)
  }

  /** Standalone tokens never overlap: a token's letters are not boundaries. */
  lemma TokensDisjoint(s: string, i: int, j: int, i': int, j': int)
    requires IsToken(s, i, j) && IsToken(s, i', j') && i < i'
    ensures j <= i'
  {
  }

  /** What position `i` turns into: the roll at a token's start, nothing inside a token, else itself. */
  function TokenPiece(s: string, i: nat, roll: string): string
    requires i < |s|
  {
    if IsToken(s, i, i + 1) || IsToken(s, i, i + 2) then roll
    else if IsToken(s, i - 1, i + 1) then ""
    else [s[i]]
  }

  function TokenPieces(s: string, i: nat, roll: string): string
    requires i <= |s|
    decreases |s| - i
  {
    if i == |s| then [] else TokenPiece(s, i, roll) + TokenPieces(s, i + 1, roll)
  }

  /** The scan with its ordered alternatives replaces exactly the standalone tokens. */
  lemma {:induction false} ReplaceDefaultRollsIsTokenPieces(s: string, i: nat, roll: string)
    requires i <= |s|
    requires !IsToken(s, i - 1, i + 1)
    ensures ReplaceDefaultRolls(s, i, roll) == TokenPieces(s, i, roll)
    decreases |s| - i
  {
    if i < |s| {
      var n := DefaultRollMatchAt(s, i);
      if n == 2 {
        PairMatch(s, i);
        ReplaceDefaultRollsIsTokenPieces(s, i + 2, roll);
        PairStep(s, i, roll);
      } else if n == 1 {
        SingleMatch(s, i);
        ReplaceDefaultRollsIsTokenPieces(s, i + 1, roll);
        SingleStep(s, i, roll);
      } else {
        NoMatch(s, i);
        ReplaceDefaultRollsIsTokenPieces(s, i + 1, roll);
        NoMatchStep(s, i, roll);
      }
    }
  }

  /** A match of `rd` is a token of two letters, and no token starts at or covers its second letter. */
  lemma PairMatch(s: string, i: nat)
    requires i < |s| && DefaultRollMatchAt(s, i) == 2
    ensures IsToken(s, i, i + 2) && !IsToken(s, i, i + 1)
    ensures !IsToken(s, i + 1, i + 2) && !IsToken(s, i + 1, i + 3)
  {
  }

  lemma SingleMatch(s: string, i: nat)
    requires i < |s| && DefaultRollMatchAt(s, i) == 1
    ensures IsToken(s, i, i + 1) && !IsToken(s, i, i + 2)
  {
  }

  lemma NoMatch(s: string, i: nat)
    requires i < |s| && DefaultRollMatchAt(s, i) == 0
    ensures !IsToken(s, i, i + 1) && !IsToken(s, i, i + 2)
  {
    assert s[i..i + 1] == [s[i]];
    if i + 2 <= |s| {
      assert s[i..i + 2] == [s[i], s[i + 1]];
    }
  }

  lemma PairStep(s: string, i: nat, roll: string)
    requires i + 2 <= |s| && DefaultRollMatchAt(s, i) == 2
    requires IsToken(s, i, i + 2) && !IsToken(s, i + 1, i + 2) && !IsToken(s, i + 1, i + 3)
    requires ReplaceDefaultRolls(s, i + 2, roll) == TokenPieces(s, i + 2, roll)
    ensures ReplaceDefaultRolls(s, i, roll) == TokenPieces(s, i, roll)
  {
    PairPieces(s, i, roll);
  }

  lemma PairPieces(s: string, i: nat, roll: string)
    requires IsToken(s, i, i + 2) && !IsToken(s, i + 1, i + 2) && !IsToken(s, i + 1, i + 3)
    ensures TokenPieces(s, i, roll) == roll + TokenPieces(s, i + 2, roll)
  {
    assert TokenPiece(s, i, roll) == roll;
    assert TokenPiece(s, i + 1, roll) == "";
    assert TokenPieces(s, i + 1, roll) == TokenPieces(s, i + 2, roll);
  }

  lemma SingleStep(s: string, i: nat, roll: string)
    requires i < |s| && DefaultRollMatchAt(s, i) == 1
    requires IsToken(s, i, i + 1)
    requires ReplaceDefaultRolls(s, i + 1, roll) == TokenPieces(s, i + 1, roll)
    ensures ReplaceDefaultRolls(s, i, roll) == TokenPieces(s, i, roll)
  {
    assert TokenPiece(s, i, roll) == roll;
  }

  lemma NoMatchStep(s: string, i: nat, roll: string)
    requires i < |s| && DefaultRollMatchAt(s, i) == 0
    requires !IsToken(s, i - 1, i + 1) && !IsToken(s, i, i + 1) && !IsToken(s, i, i + 2)
    requires ReplaceDefaultRolls(s, i + 1, roll) == TokenPieces(s, i + 1, roll)
    ensures ReplaceDefaultRolls(s, i, roll) == TokenPieces(s, i, roll)
  {
    assert TokenPiece(s, i, roll) == [s[i]];
  }

  /**
   * With the toggle on and a non-bare expression, every standalone token is
   * replaced by the default roll and every other character is kept, in one pass.
   */
  lemma DetectDefaultRollReplacesTokens(config: ChannelConfig, expression: string, card: Option<Sheet>)
    requires config.parseRule.detectDefaultRoll && !IsBareDefaultRoll(expression)
    ensures DetectDefaultRollCalculation(config, expression, card) ==
      TokenPieces(expression, 0, DefaultRoll(config, card))
  {
    ReplaceDefaultRollsIsTokenPieces(expression, 0, DefaultRoll(config, card));
  }

  /** `r+5` with default roll `d100` becomes `d100+5`. */
  lemma DetectDefaultRollExample(config: ChannelConfig)
    requires config.parseRule.detectDefaultRoll
    requires !config.defaultRoll.preferCard && config.defaultRoll.expression == "d100"
    ensures DetectDefaultRollCalculation(config, "r+5", None) == "d100+5"
  {
    var s := "r+5";
    assert DefaultRollMatchAt(s, 0) == 1;
    assert DefaultRollMatchAt(s, 1) == 0;
    assert DefaultRollMatchAt(s, 2) == 0;
  }
}
