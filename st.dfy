/**
 * The `.st` command of server/service/dice/special/st.ts. `st [show] [<@!id>] ...`
 * either shows entries of the target user's card (`show` mode) or, when the
 * sender may edit cards, parses `name value` segments separated by `, ， ; ；`,
 * rolls each value and writes the totals to the card. Dice evaluation
 * (`parseTemplate` followed by `new DiceRoll`) and the card's display text are
 * given functions: their source is not part of this model.
 */
module St {
  import opened Wrappers
  import opened Text
  import opened Cards

  /** `specialDice.stDice.writable`: who may set card entries. */
  datatype Writable = WritableNone | WritableAll | WritableManager

  /** What the dice roller reports for an expression: its rendered text and its total. */
  datatype DiceResult = DiceResult(output: string, total: int)

  /** One `{ name, roll }` of `rolls`, keeping the expression that was rolled. */
  datatype StRoll = StRoll(name: string, expression: string, result: DiceResult)

  // ---------------------------------------------------------------------------
  // The `<@!id>` mention: `AtUserPattern` and the `at` helper.

  function At(userId: string): string {
    "<@!" + userId + ">"
  }

  predicate AllDigits(s: string) {
    forall k :: 0 <= k < |s| ==> IsAsciiDigit(s[k])
  }

  /** The end of the run of ASCII digits starting at `i`. */
  function DigitRunEnd(s: string, i: nat): (e: nat)
    requires i <= |s|
    ensures i <= e <= |s|
    ensures forall k :: i <= k < e ==> IsAsciiDigit(s[k])
    ensures e == |s| || !IsAsciiDigit(s[e])
    decreases |s| - i
  {
    if i < |s| && IsAsciiDigit(s[i]) then DigitRunEnd(s, i + 1) else i
  }

  lemma {:induction false} DigitRunEndAt(s: string, i: nat, e: nat)
    requires i <= e < |s|
    requires forall k :: i <= k < e ==> IsAsciiDigit(s[k])
    requires !IsAsciiDigit(s[e])
    ensures DigitRunEnd(s, i) == e
    decreases e - i
  {
    if i < e {
      DigitRunEndAt(s, i + 1, e);
    }
  }

  /**
   * `^<@!(\d+)>`: the captured digits and the length of the whole match. The
   * digit run is greedy and `>` is not a digit, so only the full run can match.
   */
  function MatchAtUser(s: string): (r: Option<(string, nat)>)
    ensures r.Some? ==> r.value.1 <= |s| && s[..r.value.1] == At(r.value.0)
    ensures r.Some? ==> r.value.0 != [] && AllDigits(r.value.0)
  {
    if StartsWith(s, "<@!") then
      var e := DigitRunEnd(s, 3);
      if 3 < e < |s| && s[e] == '>' then
        assert s[..e + 1] == s[..3] + s[3..e] + ">";
        Some((s[3..e], e + 1))
      else None
    else None
  }

  /** A mention of a numeric id is recognised, with exactly its digits and length. */
  lemma MatchAtUserRoundTrip(id: string, rest: string)
    requires id != [] && AllDigits(id)
    ensures MatchAtUser(At(id) + rest) == Some((id, |id| + 4))
  {
    var s := At(id) + rest;
    assert s[..3] == "<@!";
    assert s[3 + |id|] == '>';
    DigitRunEndAt(s, 3, 3 + |id|);
    assert s[3..3 + |id|] == id;
  }

  // ---------------------------------------------------------------------------
  // The command header, as `roll()` takes it apart.

  /** `rawExpression.slice(2).trim()`: the text after the two-letter command. */
  function Body(raw: string): string {
    Trim(Drop(raw, 2))
  }

  /** A leading `show` selects show mode and is cut off, and the rest is trimmed. */
  function StripShow(e: string): (r: (bool, string))
    ensures r.0 <==> StartsWith(e, "show")
    ensures !r.0 ==> r.1 == e
    ensures r.0 ==> |r.1| <= |e| - 4 && (r.1 == [] || (!IsSpace(r.1[0]) && !IsSpace(r.1[|r.1| - 1])))
  {
    if StartsWith(e, "show") then (true, Trim(Drop(e, 4))) else (false, e)
  }

  /** A leading mention selects the target user and is cut off; otherwise the sender is the target. */
  function StripTarget(e: string, sender: string): (r: (string, string))
    ensures MatchAtUser(e).None? ==> r == (sender, e)
    ensures MatchAtUser(e).Some? ==> r.0 != [] && AllDigits(r.0) && StartsWith(e, At(r.0))
    ensures MatchAtUser(e).Some? ==> |r.1| <= |e| - |At(r.0)| && (r.1 == [] || (!IsSpace(r.1[0]) && !IsSpace(r.1[|r.1| - 1])))
  {
    match MatchAtUser(e)
    case Some((id, n)) => (id, Trim(Drop(e, n)))
    case None => (sender, e)
  }

  lemma DropPrefix(p: string, x: string)
    ensures Drop(p + x, |p|) == x
  {
    assert (p + x)[|p|..] == x;
  }

  /** `st show rest` selects show mode and leaves `rest`. */
  lemma ShowHeader(rest: string)
    requires rest != [] && !IsSpace(rest[0]) && !IsSpace(rest[|rest| - 1])
    ensures StripShow(Body("st show " + rest)) == (true, rest)
  {
    var x := " " + rest;
    var y := "show" + x;
    assert "st show " + rest == "st" + (" " + y);
    assert y[..4] == "show";
    DropPrefix("st", " " + y);
    DropPrefix("show", x);
    TrimmedFixed(y);
    TrimmedFixed(rest);
  }

  /** `<@!id> rest` selects the mentioned user and leaves `rest`. */
  lemma TargetHeader(id: string, rest: string, sender: string)
    requires id != [] && AllDigits(id)
    requires rest != [] && !IsSpace(rest[0]) && !IsSpace(rest[|rest| - 1])
    ensures StripTarget(At(id) + " " + rest, sender) == (id, rest)
  {
    assert At(id) + " " + rest == At(id) + (" " + rest);
    MatchAtUserRoundTrip(id, " " + rest);
    assert |At(id)| == |id| + 4;
    DropPrefix(At(id), " " + rest);
    TrimmedFixed(rest);
  }

  // ---------------------------------------------------------------------------
  // Segmentation: `exp.split(/[,，;；]+/).filter(segment => !!segment.trim())`.

  predicate IsSeparator(c: char) {
    c == ',' || c == '，' || c == ';' || c == '；'
  }

  predicate NoSeparator(s: string) {
    forall k :: 0 <= k < |s| ==> !IsSeparator(s[k])
  }

  /** The first separator at or after `i`, or the end. */
  function PieceEnd(s: string, i: nat): (e: nat)
    requires i <= |s|
    ensures i <= e <= |s|
    ensures forall k :: i <= k < e ==> !IsSeparator(s[k])
    ensures e < |s| ==> IsSeparator(s[e])
    decreases |s| - i
  {
    if i == |s| || IsSeparator(s[i]) then i else PieceEnd(s, i + 1)
  }

  /** The end of the run of separators starting at `i`. */
  function SeparatorRunEnd(s: string, i: nat): (e: nat)
    requires i <= |s|
    ensures i <= e <= |s|
    ensures forall k :: i <= k < e ==> IsSeparator(s[k])
    decreases |s| - i
  {
    if i < |s| && IsSeparator(s[i]) then SeparatorRunEnd(s, i + 1) else i
  }

  /**
   * `s.split(/[,，;；]+/)`: the text before the first separator, then the pieces of
   * what follows the run of separators; empty pieces are kept.
   */
  function Split(s: string): (pieces: seq<string>)
    ensures |pieces| >= 1
    decreases |s|
  {
    var e := PieceEnd(s, 0);
    if e == |s| then [s] else [s[..e]] + Split(s[SeparatorRunEnd(s, e + 1)..])
  }

  /** No piece holds a separator. */
  lemma {:induction false} SplitPiecesFree(s: string)
    ensures forall p :: p in Split(s) ==> NoSeparator(p)
    decreases |s|
  {
    var e := PieceEnd(s, 0);
    if e < |s| {
      SplitPiecesFree(s[SeparatorRunEnd(s, e + 1)..]);
    }
  }

  /** `s` with every separator removed. */
  function RemoveSeparators(s: string): (r: string)
    ensures |r| <= |s|
  {
    if s == [] then [] else (if IsSeparator(s[0]) then [] else [s[0]]) + RemoveSeparators(s[1..])
  }

  function Concat(pieces: seq<string>): string {
    if pieces == [] then [] else pieces[0] + Concat(pieces[1..])
  }

  lemma {:induction false} RemoveSeparatorsAppend(a: string, b: string)
    ensures RemoveSeparators(a + b) == RemoveSeparators(a) + RemoveSeparators(b)
  {
    if a != [] {
      assert (a + b)[0] == a[0];
      assert (a + b)[1..] == a[1..] + b;
      RemoveSeparatorsAppend(a[1..], b);
    } else {
      assert a + b == b;
    }
  }

  lemma {:induction false} RemoveSeparatorsNone(s: string)
    requires NoSeparator(s)
    ensures RemoveSeparators(s) == s
  {
    if s != [] {
      RemoveSeparatorsNone(s[1..]);
    }
  }

  lemma {:induction false} RemoveSeparatorsAll(s: string)
    requires forall k :: 0 <= k < |s| ==> IsSeparator(s[k])
    ensures RemoveSeparators(s) == []
  {
    if s != [] {
      RemoveSeparatorsAll(s[1..]);
    }
  }

  lemma ConcatCons(p: string, pieces: seq<string>)
    ensures Concat([p] + pieces) == p + Concat(pieces)
  {
    assert ([p] + pieces)[1..] == pieces;
  }

  lemma SplitTextStep(a: string, sep: string, rest: string, pieces: seq<string>)
    requires NoSeparator(a) && forall k :: 0 <= k < |sep| ==> IsSeparator(sep[k])
    requires Concat(pieces) == RemoveSeparators(rest)
    ensures Concat([a] + pieces) == RemoveSeparators((a + sep) + rest)
  {
    ConcatCons(a, pieces);
    RemoveSeparatorsNone(a);
    RemoveSeparatorsAll(sep);
    RemoveSeparatorsAppend(a + sep, rest);
    RemoveSeparatorsAppend(a, sep);
  }

  /** Splitting loses only the separators: the pieces put together are `s` without them. */
  lemma {:induction false} SplitKeepsText(s: string)
    ensures Concat(Split(s)) == RemoveSeparators(s)
    decreases |s|
  {
    var e := PieceEnd(s, 0);
    if e == |s| {
      ConcatCons(s, []);
      RemoveSeparatorsNone(s);
    } else {
      var r := SeparatorRunEnd(s, e + 1);
      SplitKeepsText(s[r..]);
      SplitStepParts(s, e, r);
      SplitTextStep(s[..e], s[e..r], s[r..], Split(s[r..]));
    }
  }

  /** The slices one step of `Split` cuts: a separator-free piece, then a run of separators. */
  lemma SplitStepParts(s: string, e: nat, r: nat)
    requires e == PieceEnd(s, 0) && e < |s| && r == SeparatorRunEnd(s, e + 1)
    ensures s == (s[..e] + s[e..r]) + s[r..]
    ensures NoSeparator(s[..e])
    ensures forall k :: 0 <= k < |s[e..r]| ==> IsSeparator(s[e..r][k])
  {
    assert s == (s[..e] + s[e..r]) + s[r..];
  }

  predicate IsBlank(s: string) {
    Trim(s) == []
  }

  /** The pieces that are not blank, in order. */
  function NonBlank(pieces: seq<string>): (r: seq<string>)
    ensures |r| <= |pieces|
  {
    if pieces == [] then []
    else (if IsBlank(pieces[0]) then [] else [pieces[0]]) + NonBlank(pieces[1..])
  }

  /** A piece is kept exactly when it is one of the pieces and not blank. */
  lemma {:induction false} NonBlankKeeps(pieces: seq<string>)
    ensures forall p :: p in NonBlank(pieces) <==> p in pieces && !IsBlank(p)
  {
    if pieces != [] {
      NonBlankKeeps(pieces[1..]);
      assert pieces == [pieces[0]] + pieces[1..];
    }
  }

  /** The segments of `rollSet` and `rollShow`: the non-blank pieces of the split, each free of separators. */
  function Segments(s: string): (segs: seq<string>)
    ensures forall p :: p in segs ==> p in Split(s) && NoSeparator(p) && !IsBlank(p)
    ensures forall p :: p in Split(s) && !IsBlank(p) ==> p in segs
  {
    SplitPiecesFree(s);
    NonBlankKeeps(Split(s));
    NonBlank(Split(s))
  }

  lemma PrefixStep<T>(xs: seq<T>, i: nat)
    requires i < |xs|
    ensures xs[..i + 1] == xs[..i] + [xs[i]]
    ensures xs[..i + 1][..i] == xs[..i] && xs[..i + 1][i] == xs[i]
  {
  }

  /** `PieceEnd` from `i` is `e` when `s[i..e]` has no separator and a separator or the end follows. */
  lemma {:induction false} PieceEndIs(s: string, i: nat, e: nat)
    requires i <= e <= |s| && (forall k :: i <= k < e ==> !IsSeparator(s[k]))
    requires e == |s| || IsSeparator(s[e])
    ensures PieceEnd(s, i) == e
    decreases e - i
  {
    if i < e {
      PieceEndIs(s, i + 1, e);
    }
  }

  /** `SeparatorRunEnd` from `i` is `e` when `s[i..e]` is all separators and no separator follows. */
  lemma {:induction false} SeparatorRunEndIs(s: string, i: nat, e: nat)
    requires i <= e <= |s| && (forall k :: i <= k < e ==> IsSeparator(s[k]))
    requires e == |s| || !IsSeparator(s[e])
    ensures SeparatorRunEnd(s, i) == e
    decreases e - i
  {
    if i < e {
      SeparatorRunEndIs(s, i + 1, e);
    }
  }

  /**
   * One cut of the split: a separator-free prefix, a run of separators and the rest
   * give the prefix as a piece, then the pieces of the rest.
   */
  lemma SplitStep(a: string, sep: string, rest: string)
    requires NoSeparator(a)
    requires sep != [] && forall k :: 0 <= k < |sep| ==> IsSeparator(sep[k])
    requires rest == [] || !IsSeparator(rest[0])
    ensures Split(a + sep + rest) == [a] + Split(rest)
  {
    var s := a + sep + rest;
    var e, r := |a|, |a| + |sep|;
    forall k | 0 <= k < e ensures !IsSeparator(s[k]) {
      assert s[k] == a[k];
    }
    assert IsSeparator(s[e]) by { assert s[e] == sep[0]; }
    PieceEndIs(s, 0, e);
    forall k | e + 1 <= k < r ensures IsSeparator(s[k]) {
      assert s[k] == sep[k - e];
    }
    assert r < |s| ==> s[r] == rest[0];
    SeparatorRunEndIs(s, e + 1, r);
    assert s[..e] == a && s[r..] == rest;
  }

  lemma NonBlankCons(p: string, pieces: seq<string>)
    ensures NonBlank([p] + pieces) == (if IsBlank(p) then [] else [p]) + NonBlank(pieces)
  {
    assert ([p] + pieces)[1..] == pieces;
  }

  /**
   * The segments in order: text up to the first run of separators is the first
   * segment unless it is blank, and the rest is segmented on its own.
   */
  lemma SegmentsStep(a: string, sep: string, rest: string)
    requires NoSeparator(a)
    requires sep != [] && forall k :: 0 <= k < |sep| ==> IsSeparator(sep[k])
    requires rest == [] || !IsSeparator(rest[0])
    ensures Segments(a + sep + rest) == (if IsBlank(a) then [] else [a]) + Segments(rest)
  {
    SplitStep(a, sep, rest);
    NonBlankCons(a, Split(rest));
  }

  /** Text without separators is one segment, or none when it is blank. */
  lemma SegmentsOfOne(s: string)
    requires NoSeparator(s)
    ensures Segments(s) == if IsBlank(s) then [] else [s]
  {
    assert PieceEnd(s, 0) == |s|;
    assert s[0..] == s;
  }

  /** `力量60，敏捷50` is cut at the full-width comma only, into two segments in order. */
  lemma SegmentsExample(s: string, a: string, b: string)
    requires a == "力量60" && b == "敏捷50" && s == a + "，" + b
    ensures Segments(s) == [a, b]
  {
    ExampleFirstCut(s, a, b);
    ExampleLastSegment(b);
    TwoSegments(Segments(s), a, Segments(b), b);
  }

  lemma TwoSegments(x: seq<string>, a: string, y: seq<string>, b: string)
    requires x == [a] + y && y == [b]
    ensures x == [a, b]
  {
  }

  lemma ExampleFirstCut(s: string, a: string, b: string)
    requires a == "力量60" && b == "敏捷50" && s == a + "，" + b
    ensures Segments(s) == [a] + Segments(b)
  {
    ExampleComma();
    ExampleSegment(a);
    ExampleSegment(b);
    SegmentsStep(a, "，", b);
  }

  lemma ExampleLastSegment(b: string)
    requires b == "敏捷50"
    ensures Segments(b) == [b]
  {
    ExampleSegment(b);
    SegmentsOfOne(b);
  }

  lemma ExampleComma()
    ensures forall k :: 0 <= k < |"，"| ==> IsSeparator("，"[k])
  {
  }

  /** A name and a number with no space or separator: one whole segment. */
  lemma ExampleSegment(s: string)
    requires s == "力量60" || s == "敏捷50"
    ensures NoSeparator(s) && !IsBlank(s) && !IsSeparator(s[0])
  {
    NoSpaceTrimmed(s);
  }

  // ---------------------------------------------------------------------------
  // One `name value` segment of `rollSet`.

  /** `[\s+\-\d]`: where the name stops. */
  predicate EndsName(c: char) {
    IsSpace(c) || c == '+' || c == '-' || IsAsciiDigit(c)
  }

  /** `segment.search(/[\s+\-\d]/)` from `i` on. */
  function NameEnd(seg: string, i: nat): (r: Option<nat>)
    requires i <= |seg|
    ensures r.Some? ==> i <= r.value < |seg| && EndsName(seg[r.value])
    ensures forall k :: i <= k < (if r.Some? then r.value else |seg|) ==> !EndsName(seg[k])
    decreases |seg| - i
  {
    if i == |seg| then None
    else if EndsName(seg[i]) then Some(i)
    else NameEnd(seg, i + 1)
  }

  lemma {:induction false} NameEndAt(seg: string, i: nat, e: nat)
    requires i <= e < |seg| && EndsName(seg[e])
    requires forall k :: i <= k < e ==> !EndsName(seg[k])
    ensures NameEnd(seg, i) == Some(e)
    decreases e - i
  {
    if i < e {
      NameEndAt(seg, i + 1, e);
    }
  }

  /** The trimmed name before the first name-ending character and the trimmed rest, unless either is empty. */
  function ParseSegment(seg: string): (r: Option<(string, string)>)
    ensures r.Some? ==> r.value.0 != [] && r.value.1 != []
    ensures r.Some? ==> |r.value.0| < |seg| && seg[..|r.value.0|] == r.value.0 && EndsName(seg[|r.value.0|])
    ensures r.Some? ==> forall k :: 0 <= k < |r.value.0| ==> !EndsName(r.value.0[k])
    ensures r.Some? ==> r.value.1 == Trim(seg[|r.value.0|..])
  {
    match NameEnd(seg, 0)
    case None => None
    case Some(index) =>
      NameTrimmed(seg, index);
      var name := Trim(seg[..index]);
      var value := Trim(seg[index..]);
      if name == [] || value == [] then None else Some((name, value))
  }

  /** The text before the first name-ending character holds no white space, so trimming keeps all of it. */
  lemma NameTrimmed(seg: string, index: nat)
    requires NameEnd(seg, 0) == Some(index)
    ensures var name := Trim(seg[..index]);
      && |name| == index && seg[..|name|] == name
      && forall k :: 0 <= k < |name| ==> !EndsName(name[k])
  {
    var name := seg[..index];
    forall k | 0 <= k < |name| ensures !EndsName(name[k]) {
      assert name[k] == seg[k];
    }
    NoSpaceTrimmed(name);
  }

  /** A segment that starts with white space, a sign or a digit has an empty name and is skipped. */
  lemma SegmentWithoutNameSkipped(seg: string)
    requires seg != [] && EndsName(seg[0])
    ensures ParseSegment(seg) == None
  {
    assert seg[..0] == [];
  }

  /** A name followed by a value that starts with a name-ending character is split back into the two. */
  lemma ParseSegmentRoundTrip(name: string, value: string)
    requires name != [] && forall k :: 0 <= k < |name| ==> !EndsName(name[k])
    requires value != [] && EndsName(value[0]) && Trim(value) != []
    ensures ParseSegment(name + value) == Some((name, Trim(value)))
  {
    var seg := name + value;
    NameEndAt(seg, 0, |name|);
    assert seg[..|name|] == name;
    assert seg[|name|..] == value;
    NoSpaceTrimmed(name);
  }

  /** A DnD skill without a postfix is set through its modifier entry `name修正`. */
  function StName(sheet: Sheet, name: string): string {
    if sheet.kind == DndCard && name in sheet.entries
      && sheet.entries[name].entryType == "skills" && sheet.entries[name].postfix == "none"
    then name + "修正"
    else name
  }

  /** A value starting with `+` or `-` is relative to the entry, `${name}` plus the value; any other value stands alone. */
  function StExpression(name: string, value: string): string {
    if StartsWith(value, "+") || StartsWith(value, "-") then "${" + name + "}" + value else value
  }

  /**
   * The roll a segment contributes: one exactly when the segment parses, named
   * after the parsed name or its DnD modifier entry, and evaluated for the target user.
   */
  function SegmentRoll(seg: string, sheet: Sheet, target: string, evaluate: (string, string) -> DiceResult): (r: Option<StRoll>)
    ensures r.Some? <==> ParseSegment(seg).Some?
    ensures r.Some? ==> r.value.name in {ParseSegment(seg).value.0, ParseSegment(seg).value.0 + "修正"}
    ensures r.Some? ==> r.value.expression != [] && r.value.result == evaluate(target, r.value.expression)
  {
    match ParseSegment(seg)
    case None => None
    case Some((name, value)) =>
      var n := StName(sheet, name);
      var e := StExpression(n, value);
      Some(StRoll(n, e, evaluate(target, e)))
  }

  /**
   * On a DnD sheet whose `运动` entry is a skill without a postfix, `运动+2` is
   * stored as `运动修正` and rolled relative to that entry.
   */
  lemma DndSkillRedirected(sheet: Sheet, target: string, evaluate: (string, string) -> DiceResult)
    requires sheet.kind == DndCard && "运动" in sheet.entries
    requires sheet.entries["运动"].entryType == "skills" && sheet.entries["运动"].postfix == "none"
    ensures SegmentRoll("运动+2", sheet, target, evaluate) ==
      Some(StRoll("运动修正", "${运动修正}+2", evaluate(target, "${运动修正}+2")))
  {
    RelativeSegmentParsed();
    RedirectedTexts();
  }

  lemma RedirectedTexts()
    ensures "运动" + "修正" == "运动修正"
    ensures StExpression("运动修正", "+2") == "${运动修正}+2"
  {
    assert StartsWith("+2", "+");
  }

  lemma RelativeSegmentParsed()
    ensures ParseSegment("运动+2") == Some(("运动", "+2"))
  {
    RelativeSegmentParts();
    ParseSegmentRoundTrip("运动", "+2");
    RelativeSegmentText();
  }

  lemma RelativeSegmentParts()
    ensures forall k :: 0 <= k < |"运动"| ==> !EndsName("运动"[k])
    ensures "+2" != [] && EndsName("+2"[0]) && Trim("+2") != [] && Trim("+2") == "+2"
  {
    SegmentPartsPlain("运动", "+2");
  }

  lemma RelativeSegmentText()
    ensures "运动" + "+2" == "运动+2"
  {
  }

  /** A two-character name and a value that is already trimmed, as `ParseSegmentRoundTrip` needs them. */
  lemma SegmentPartsPlain(name: string, value: string)
    requires |name| == 2 && !EndsName(name[0]) && !EndsName(name[1])
    requires value != [] && EndsName(value[0]) && !IsSpace(value[0]) && !IsSpace(value[|value| - 1])
    ensures forall k :: 0 <= k < |name| ==> !EndsName(name[k])
    ensures Trim(value) == value
  {
    TrimmedFixed(value);
  }

  /** On any other sheet the name is kept, and a value without a sign is rolled as it is. */
  lemma AbsoluteValueKept(sheet: Sheet, target: string, evaluate: (string, string) -> DiceResult)
    requires sheet.kind != DndCard
    ensures SegmentRoll("力量 60", sheet, target, evaluate) == Some(StRoll("力量", "60", evaluate(target, "60")))
  {
    AbsoluteSegmentParsed();
    AbsoluteText();
  }

  lemma AbsoluteText()
    ensures StExpression("力量", "60") == "60"
  {
    assert "60"[..1][0] == '6';
  }

  lemma AbsoluteSegmentParsed()
    ensures ParseSegment("力量 60") == Some(("力量", "60"))
  {
    AbsoluteSegmentParts();
    ParseSegmentRoundTrip("力量", " 60");
    AbsoluteSegmentText();
  }

  lemma AbsoluteSegmentParts()
    ensures forall k :: 0 <= k < |"力量"| ==> !EndsName("力量"[k])
    ensures " 60" != [] && EndsName(" 60"[0]) && Trim(" 60") != [] && Trim(" 60") == "60"
  {
    SegmentPartsSpaced("力量", "60");
  }

  lemma AbsoluteSegmentText()
    ensures "力量" + " 60" == "力量 60"
  {
  }

  /** A two-character name and a trimmed value after one space. */
  lemma SegmentPartsSpaced(name: string, value: string)
    requires |name| == 2 && !EndsName(name[0]) && !EndsName(name[1])
    requires value != [] && !IsSpace(value[0]) && !IsSpace(value[|value| - 1])
    ensures forall k :: 0 <= k < |name| ==> !EndsName(name[k])
    ensures (" " + value)[0] == ' ' && Trim(" " + value) == value
  {
    TrimmedFixed(value);
  }

  /** `SegmentRoll` for one sheet, target and roller, as the function `forEach` applies. */
  function SegmentRoller(sheet: Sheet, target: string, evaluate: (string, string) -> DiceResult): string -> Option<StRoll> {
    seg => SegmentRoll(seg, sheet, target, evaluate)
  }

  /** The present results of `f` over `xs`, in order. */
  function Collect<T>(xs: seq<string>, f: string -> Option<T>): (r: seq<T>)
    ensures |r| <= |xs|
  {
    if xs == [] then []
    else Collect(xs[..|xs| - 1], f) + (if f(xs[|xs| - 1]).Some? then [f(xs[|xs| - 1]).value] else [])
  }

  /** The number of `xs` for which `f` has a result. */
  function Hits<T>(xs: seq<string>, f: string -> Option<T>): nat {
    if xs == [] then 0 else Hits(xs[..|xs| - 1], f) + (if f(xs[|xs| - 1]).Some? then 1 else 0)
  }

  /** The rolls `rollSet` appends for `segs`, in segment order: each one a named expression evaluated for the target. */
  function SetRolls(segs: seq<string>, sheet: Sheet, target: string, evaluate: (string, string) -> DiceResult): (rolls: seq<StRoll>)
    ensures |rolls| <= |segs|
    ensures forall r :: r in rolls ==> r.name != [] && r.expression != [] && r.result == evaluate(target, r.expression)
  {
    var roller := SegmentRoller(sheet, target, evaluate);
    CollectFrom(segs, roller);
    Collect(segs, roller)
  }

  /** Every collected result is the result of some element. */
  lemma {:induction false} CollectFrom<T>(xs: seq<string>, f: string -> Option<T>)
    ensures forall y :: y in Collect(xs, f) ==> exists x :: x in xs && f(x) == Some(y)
  {
    if xs != [] {
      var init := xs[..|xs| - 1];
      CollectFrom(init, f);
      forall y | y in Collect(xs, f)
        ensures exists x :: x in xs && f(x) == Some(y)
      {
        if y in Collect(init, f) {
          var x :| x in init && f(x) == Some(y);
          assert x in xs;
        } else {
          assert f(xs[|xs| - 1]) == Some(y);
        }
      }
    }
  }

  lemma CollectStep<T>(xs: seq<string>, i: nat, f: string -> Option<T>)
    requires i < |xs|
    ensures Collect(xs[..i + 1], f) == Collect(xs[..i], f) + (if f(xs[i]).Some? then [f(xs[i]).value] else [])
  {
    PrefixStep(xs, i);
  }

  /** Exactly one result per element that has one. */
  lemma {:induction false} CollectCount<T>(xs: seq<string>, f: string -> Option<T>)
    ensures |Collect(xs, f)| == Hits(xs, f)
  {
    if xs != [] {
      CollectCount(xs[..|xs| - 1], f);
    }
  }

  /** The results of consecutive runs follow one another: order is kept. */
  lemma {:induction false} CollectAppend<T>(a: seq<string>, b: seq<string>, f: string -> Option<T>)
    ensures Collect(a + b, f) == Collect(a, f) + Collect(b, f)
    decreases |b|
  {
    if b == [] {
      assert a + b == a;
    } else {
      var init := b[..|b| - 1];
      CollectAppend(a, init, f);
      assert (a + b)[..|a + b| - 1] == a + init;
      assert (a + b)[|a + b| - 1] == b[|b| - 1];
    }
  }

  /** One element yields its own result, or nothing. */
  lemma CollectSingle<T>(x: string, f: string -> Option<T>)
    ensures Collect([x], f) == if f(x).Some? then [f(x).value] else []
  {
    assert [x][..0] == [];
  }

  /** When every element has a result, result `k` belongs to element `k`. */
  lemma {:induction false} CollectAll<T>(xs: seq<string>, f: string -> Option<T>)
    requires forall k :: 0 <= k < |xs| ==> f(xs[k]).Some?
    ensures |Collect(xs, f)| == |xs|
    ensures forall k :: 0 <= k < |xs| ==> Some(Collect(xs, f)[k]) == f(xs[k])
  {
    if xs != [] {
      var init := xs[..|xs| - 1];
      CollectAll(init, f);
      assert forall k :: 0 <= k < |init| ==> init[k] == xs[k];
    }
  }

  /** The lines `rollShow` appends: one display per segment, or the card summary when there is none. */
  function ShowLines(segs: seq<string>, sheet: Sheet, display: (Sheet, string) -> string, summary: Sheet -> string): (lines: seq<string>)
    ensures |lines| == if segs == [] then 1 else |segs|
    ensures forall k :: 0 <= k < |segs| ==> lines[k] == display(sheet, segs[k])
  {
    if |segs| > 0 then seq(|segs|, k requires 0 <= k < |segs| => display(sheet, segs[k]))
    else ["\n" + summary(sheet)]
  }

  // ---------------------------------------------------------------------------
  // `applyToCard`: every total written, in order, with the reported change.

  /**
   * The entries after `setEntry` for each roll in turn, and whether any call
   * reported a change; when none did, the entries are as they were.
   */
  function ApplyRolls(entries: map<string, Entry>, rolls: seq<StRoll>): (r: (map<string, Entry>, bool))
    ensures !r.1 ==> r.0 == entries
  {
    if rolls == [] then (entries, false)
    else
      var before := ApplyRolls(entries, rolls[..|rolls| - 1]);
      var last := rolls[|rolls| - 1];
      var after := SetEntryResult(before.0, last.name, last.result.total);
      (after.0, before.1 || after.1)
  }

  function Names(rolls: seq<StRoll>): set<string> {
    set r | r in rolls :: r.name
  }

  /** The rolled names are added, and every entry no roll names is kept. */
  lemma {:induction false} ApplyRollsFrame(entries: map<string, Entry>, rolls: seq<StRoll>)
    ensures ApplyRolls(entries, rolls).0.Keys == entries.Keys + Names(rolls)
    ensures forall k :: k in entries && k !in Names(rolls) ==> ApplyRolls(entries, rolls).0[k] == entries[k]
  {
    if rolls != [] {
      var init := rolls[..|rolls| - 1];
      ApplyRollsFrame(entries, init);
      assert rolls == init + [rolls[|rolls| - 1]];
      assert Names(rolls) == Names(init) + {rolls[|rolls| - 1].name};
    }
  }

  /** The last roll of a name decides its value: later rolls of other names leave it alone. */
  lemma {:induction false} LastWriteWins(entries: map<string, Entry>, rolls: seq<StRoll>, i: nat)
    requires i < |rolls|
    requires forall k :: i < k < |rolls| ==> rolls[k].name != rolls[i].name
    ensures rolls[i].name in ApplyRolls(entries, rolls).0
    ensures ApplyRolls(entries, rolls).0[rolls[i].name].value == rolls[i].result.total
    decreases |rolls|
  {
    if i < |rolls| - 1 {
      var init := rolls[..|rolls| - 1];
      LastWriteWins(entries, init, i);
    }
  }

  // ---------------------------------------------------------------------------
  // `output`.

  /**
   * The reply for the command's final state; `cardName` is absent when the
   * target has no card. The denial is addressed to the sender by name, the
   * prompt for a missing value mentions the sender, every other reply the target.
   */
  function Render(show: bool, target: string, cardName: Option<string>, permitted: bool,
                  username: string, sender: string, shows: seq<string>, rolls: seq<StRoll>): (reply: string)
    ensures cardName.None? || show || (permitted && rolls != []) ==> StartsWith(reply, At(target))
    ensures cardName.Some? && !show && !permitted ==> StartsWith(reply, username)
    ensures cardName.Some? && !show && permitted && rolls == [] ==> StartsWith(reply, At(sender))
  {
    match cardName
    case None => At(target) + "没有关联人物卡"
    case Some(name) =>
      if show then
        At(target) + "(" + name + "):" + (if |shows| > 1 then "\n" else " ") + Join(shows, " ")
      else if !permitted then username + " 没有修改人物卡的权限"
      else if |rolls| == 0 then At(sender) + "请指定想要设置的属性名与属性值"
      else if |rolls| == 1 then
        At(target) + "(" + name + ") 设置 " + rolls[0].name + " " + rolls[0].result.output
      else
        At(target) + "(" + name + ") 设置:\n"
          + Join(seq(|rolls|, k requires 0 <= k < |rolls| => rolls[k].name + "=" + IntToString(rolls[k].result.total)), " ")
  }

  /**
   * Every reply except the permission denial and the prompt for a missing
   * value opens with a mention of the target, which reads back as the target.
   */
  lemma RenderMentionsTarget(show: bool, target: string, cardName: Option<string>, permitted: bool,
                             username: string, sender: string, shows: seq<string>, rolls: seq<StRoll>)
    requires target != [] && AllDigits(target)
    requires cardName.None? || show || (permitted && rolls != [])
    ensures MatchAtUser(Render(show, target, cardName, permitted, username, sender, shows, rolls)) == Some((target, |target| + 4))
  {
    var out := Render(show, target, cardName, permitted, username, sender, shows, rolls);
    assert out == At(target) + out[|target| + 4..];
    MatchAtUserRoundTrip(target, out[|target| + 4..]);
  }

  /** Without a card the reply names only the target; mode, permission, shows and rolls do not matter. */
  lemma RenderWithoutCard(show: bool, target: string, permitted: bool, username: string, sender: string,
                          shows: seq<string>, rolls: seq<StRoll>)
    ensures Render(show, target, None, permitted, username, sender, shows, rolls)
         == Render(false, target, None, false, "", "", [], [])
  {
  }

  /** Set mode without permission answers the same denial whatever was rolled. */
  lemma RenderDeniedIgnoresRolls(target: string, cardName: string, username: string, sender: string,
                                 shows: seq<string>, rolls: seq<StRoll>)
    ensures Render(false, target, Some(cardName), false, username, sender, shows, rolls)
         == Render(false, "", Some(""), false, username, "", [], [])
  {
  }

  // ---------------------------------------------------------------------------
  // `hasEditPermission`

  /** Whether a sender of `role` may set entries: `none` forbids everyone, `all` allows everyone, `manager` every role but `user`. */
  function EditPermitted(writable: Writable, role: string): (b: bool)
    ensures writable == WritableAll ==> b
    ensures writable == WritableNone ==> !b
    ensures writable == WritableManager ==> (b <==> role != "user")
  {
    match writable
    case WritableNone => false
    case WritableAll => true
    case WritableManager => role != "user"
  }

  /** The three settings are ordered: whoever `none` allows, `manager` allows, and whoever `manager` allows, `all` allows. */
  lemma PermissionOrdered(role: string)
    ensures EditPermitted(WritableNone, role) ==> EditPermitted(WritableManager, role)
    ensures EditPermitted(WritableManager, role) ==> EditPermitted(WritableAll, role)
    ensures exists r :: !EditPermitted(WritableManager, r)
  {
    assert !EditPermitted(WritableManager, "user");
  }

  // ---------------------------------------------------------------------------
  // The command object.

  class StDiceRoll {
    const rawExpression: string
    const userId: string
    const username: string
    const userRole: string
    const writable: Writable
    /** `context.getCard`: the card linked to each user. */
    const cards: map<string, Card>
    /** `new DiceRoll(parseTemplate(expression, context))` for a target user and an expression. */
    const evaluate: (string, string) -> DiceResult
    /** `getEntryDisplay` and `getSummary` of a card. */
    const display: (Sheet, string) -> string
    const summary: Sheet -> string

    var show: bool
    var targetUserId: string
    var exp: string
    var targetUserCard: Card?
    var rolls: seq<StRoll>
    var shows: seq<string>

    constructor (rawExpression: string, userId: string, username: string, userRole: string, writable: Writable,
                 cards: map<string, Card>, evaluate: (string, string) -> DiceResult,
                 display: (Sheet, string) -> string, summary: Sheet -> string)
      ensures this.rawExpression == rawExpression && this.userId == userId && this.username == username
      ensures this.userRole == userRole && this.writable == writable && this.cards == cards
      ensures this.evaluate == evaluate && this.display == display && this.summary == summary
      ensures !show && targetUserId == "" && exp == "" && targetUserCard == null && rolls == [] && shows == []
    {
      this.rawExpression := rawExpression;
      this.userId := userId;
      this.username := username;
      this.userRole := userRole;
      this.writable := writable;
      this.cards := cards;
      this.evaluate := evaluate;
      this.display := display;
      this.summary := summary;
      show := false;
      targetUserId := "";
      exp := "";
      targetUserCard := null;
      rolls := [];
      shows := [];
    }

    predicate HasEditPermission() {
      EditPermitted(writable, userRole)
    }

    function CardOf(user: string): Card? {
      if user in cards then cards[user] else null
    }

    /** Parses the header, finds the target's card and then shows or sets entries. */
    method Roll()
      modifies this
      ensures var (s, e) := StripShow(Body(rawExpression));
        show == (old(show) || s) && (targetUserId, exp) == StripTarget(e, userId)
      ensures targetUserCard == CardOf(targetUserId)
      ensures targetUserCard == null ==> rolls == old(rolls) && shows == old(shows)
      ensures targetUserCard != null && show ==>
        shows == old(shows) + ShowLines(Segments(exp), targetUserCard.sheet, display, summary) && rolls == old(rolls)
      ensures targetUserCard != null && !show && HasEditPermission() ==>
        rolls == old(rolls) + SetRolls(Segments(exp), targetUserCard.sheet, targetUserId, evaluate) && shows == old(shows)
      ensures targetUserCard != null && !show && !HasEditPermission() ==> rolls == old(rolls) && shows == old(shows)
    {
      ReadHeader();
      RollTarget();
    }

    /** The rest of `roll()`: finds the target's card, then shows its entries or sets them. */
    method RollTarget()
      modifies this
      ensures show == old(show) && targetUserId == old(targetUserId) && exp == old(exp)
      ensures targetUserCard == CardOf(targetUserId)
      ensures targetUserCard == null ==> rolls == old(rolls) && shows == old(shows)
      ensures targetUserCard != null && show ==>
        shows == old(shows) + ShowLines(Segments(exp), targetUserCard.sheet, display, summary) && rolls == old(rolls)
      ensures targetUserCard != null && !show && HasEditPermission() ==>
        rolls == old(rolls) + SetRolls(Segments(exp), targetUserCard.sheet, targetUserId, evaluate) && shows == old(shows)
      ensures targetUserCard != null && !show && !HasEditPermission() ==> rolls == old(rolls) && shows == old(shows)
    {
      targetUserCard := CardOf(targetUserId);
      if targetUserCard == null {
        return;
      }
      if show {
        RollShow();
      } else if HasEditPermission() {
        RollSet();
      }
    }

    /** The first steps of `roll()`: the mode, the target user and what is left of the expression. */
    method ReadHeader()
      modifies this
      ensures var (s, e) := StripShow(Body(rawExpression));
        show == (old(show) || s) && (targetUserId, exp) == StripTarget(e, userId)
      ensures targetUserCard == old(targetUserCard) && rolls == old(rolls) && shows == old(shows)
    {
      ReadMode();
      ReadTarget();
    }

    /** The command word dropped, then a leading `show` taken as show mode. */
    method ReadMode()
      modifies this
      ensures var (s, e) := StripShow(Body(rawExpression)); show == (old(show) || s) && exp == e
      ensures targetUserId == old(targetUserId)
      ensures targetUserCard == old(targetUserCard) && rolls == old(rolls) && shows == old(shows)
    {
      exp := Body(rawExpression);
      if StartsWith(exp, "show") {
        show := true;
        exp := Trim(Drop(exp, 4));
      }
    }

    /** A leading mention taken as the target user, the sender otherwise. */
    method ReadTarget()
      modifies this
      ensures (targetUserId, exp) == StripTarget(old(exp), userId)
      ensures show == old(show) && targetUserCard == old(targetUserCard) && rolls == old(rolls) && shows == old(shows)
    {
      var m := MatchAtUser(exp);
      if m.Some? {
        targetUserId := m.value.0;
        exp := Trim(Drop(exp, m.value.1));
      } else {
        targetUserId := userId;
      }
    }

    /** Appends one roll per accepted segment, in segment order. */
    method RollSet()
      requires targetUserCard != null
      modifies this
      ensures targetUserCard == old(targetUserCard)
      ensures rolls == old(rolls) + SetRolls(Segments(exp), targetUserCard.sheet, targetUserId, evaluate)
      ensures show == old(show) && targetUserId == old(targetUserId) && exp == old(exp) && shows == old(shows)
    {
      PushRolls(Segments(exp), SegmentRoller(targetUserCard.sheet, targetUserId, evaluate));
    }

    /** The `forEach` of `rollSet`: pushes the roll of each segment that yields one. */
    method PushRolls(segs: seq<string>, roller: string -> Option<StRoll>)
      modifies this
      ensures rolls == old(rolls) + Collect(segs, roller)
      ensures show == old(show) && targetUserId == old(targetUserId) && exp == old(exp)
      ensures targetUserCard == old(targetUserCard) && shows == old(shows)
    {
      var i := 0;
      while i < |segs|
        invariant 0 <= i <= |segs|
        invariant rolls == old(rolls) + Collect(segs[..i], roller)
        invariant show == old(show) && targetUserId == old(targetUserId) && exp == old(exp)
        invariant targetUserCard == old(targetUserCard) && shows == old(shows)
      {
        var r := roller(segs[i]);
        if r.Some? {
          rolls := rolls + [r.value];
        }
        CollectStep(segs, i, roller);
        i := i + 1;
      }
      assert segs[..i] == segs;
    }

    /** Appends the display of each segment, or the card summary when no segment is given. */
    method RollShow()
      requires targetUserCard != null
      modifies this
      ensures targetUserCard == old(targetUserCard)
      ensures shows == old(shows) + ShowLines(Segments(exp), targetUserCard.sheet, display, summary)
      ensures show == old(show) && targetUserId == old(targetUserId) && exp == old(exp) && rolls == old(rolls)
    {
      shows := shows + ShowLines(Segments(exp), targetUserCard.sheet, display, summary);
    }

    /** The reply: addressed to the target, except the denial (to the sender by name) and the prompt (to the sender). */
    function Output(): (reply: string)
      reads this, targetUserCard
      ensures targetUserCard == null || show || (HasEditPermission() && rolls != []) ==> StartsWith(reply, At(targetUserId))
      ensures targetUserCard != null && !show && !HasEditPermission() ==> StartsWith(reply, username)
      ensures targetUserCard != null && !show && HasEditPermission() && rolls == [] ==> StartsWith(reply, At(userId))
    {
      Render(show, targetUserId, if targetUserCard == null then None else Some(targetUserCard.sheet.name),
             HasEditPermission(), username, userId, shows, rolls)
    }

    /** Writes every roll's total to the card and returns the card exactly when some write changed it. */
    method ApplyToCard() returns (updated: seq<Card>)
      modifies targetUserCard
      ensures show || targetUserCard == null || rolls == [] ==> updated == []
      ensures targetUserCard != null && (show || rolls == []) ==> unchanged(targetUserCard)
      ensures targetUserCard != null && !show && rolls != [] ==>
        var (entries, changed) := ApplyRolls(old(targetUserCard.sheet.entries), rolls);
        targetUserCard.sheet == old(targetUserCard.sheet).(entries := entries)
        && updated == (if changed then [targetUserCard] else [])
    {
      if show || targetUserCard == null || |rolls| == 0 {
        return [];
      }
      var card := targetUserCard;
      var modified := false;
      var i := 0;
      while i < |rolls|
        invariant 0 <= i <= |rolls|
        invariant (card.sheet.entries, modified) == ApplyRolls(old(card.sheet.entries), rolls[..i])
        invariant card.sheet == old(card.sheet).(entries := card.sheet.entries)
      {
        var b := card.SetEntry(rolls[i].name, rolls[i].result.total);
        modified := modified || b;
        PrefixStep(rolls, i);
        i := i + 1;
      }
      assert rolls[..i] == rolls;
      updated := if modified then [card] else [];
    }
  }
}
