/**
 * Character classes and string helpers shared by the expression rewriters and
 * the `.st` parser. Strings are sequences of Unicode code points; JavaScript's
 * UTF-16 code units coincide with them for characters of the basic plane.
 */
module Text {

  /** `[a-zA-Z]` */
  predicate IsAsciiLetter(c: char) {
    'a' <= c <= 'z' || 'A' <= c <= 'Z'
  }

  /** `\d`, which stays ASCII-only even under the `u` flag. */
  predicate IsAsciiDigit(c: char) {
    '0' <= c <= '9'
  }

  /** `\p{Unified_Ideograph}`, as the Unicode 15.1 property table lists it. */
  predicate IsIdeograph(c: char) {
    || '\U{3400}' <= c <= '\U{4DBF}'
    || '\U{4E00}' <= c <= '\U{9FFF}'
    || c == '\U{FA0E}' || c == '\U{FA0F}' || c == '\U{FA11}'
    || c == '\U{FA13}' || c == '\U{FA14}' || c == '\U{FA1F}'
    || c == '\U{FA21}' || c == '\U{FA23}' || c == '\U{FA24}'
    || '\U{FA27}' <= c <= '\U{FA29}'
    || '\U{20000}' <= c <= '\U{2A6DF}'
    || '\U{2A700}' <= c <= '\U{2B739}'
    || '\U{2B740}' <= c <= '\U{2B81D}'
    || '\U{2B820}' <= c <= '\U{2CEA1}'
    || '\U{2CEB0}' <= c <= '\U{2EBE0}'
    || '\U{2EBF0}' <= c <= '\U{2EE5D}'
    || '\U{30000}' <= c <= '\U{3134A}'
    || '\U{31350}' <= c <= '\U{323AF}'
  }

  /** The run character class `[a-zA-Z\p{Unified_Ideograph}]` of the entry regexes. */
  predicate IsWordChar(c: char) {
    IsAsciiLetter(c) || IsIdeograph(c)
  }

  lemma WordCharIsNotDigitOrDollar(c: char)
    requires IsWordChar(c)
    ensures !IsAsciiDigit(c) && c != '$'
  {
  }

  // `[+\-*/({]`: the lookbehind set of the entry and default-roll regexes.
  predicate IsLeftBoundary(c: char) {
    c == '+' || c == '-' || c == '*' || c == '/' || c == '(' || c == '{'
  }

  /** The characters `.` refuses to match. */
  predicate IsLineTerminator(c: char) {
    c == '\n' || c == '\r' || c == '\U{2028}' || c == '\U{2029}'
  }

  /** JavaScript white space and line terminators: the class `\s`, and what `trim` removes. */
  predicate IsSpace(c: char) {
    || c == '\t' || c == '\U{B}' || c == '\U{C}' || c == ' ' || c == '\U{A0}'
    || c == '\U{1680}' || '\U{2000}' <= c <= '\U{200A}' || c == '\U{202F}'
    || c == '\U{205F}' || c == '\U{3000}' || c == '\U{FEFF}'
    || IsLineTerminator(c)
  }

  /** Lower-casing of one character; only ASCII capitals change, so length is kept. */
  function Lower(c: char): (l: char)
    ensures IsAsciiLetter(c) <==> IsAsciiLetter(l)
    ensures !('A' <= l <= 'Z')
    ensures 'A' <= c <= 'Z' ==> l as int == c as int + 32
    ensures !('A' <= c <= 'Z') ==> l == c
  {
    if 'A' <= c <= 'Z' then (c as int + 32) as char else c
  }

  /** `String.prototype.toLowerCase`, position by position. */
  function LowerString(s: string): (r: string)
    ensures |r| == |s|
    ensures forall k :: 0 <= k < |s| ==> r[k] == Lower(s[k])
  {
    seq(|s|, k requires 0 <= k < |s| => Lower(s[k]))
  }

  predicate StartsWith(s: string, prefix: string) {
    |prefix| <= |s| && s[..|prefix|] == prefix
  }

  /** `s.slice(n)`: JavaScript clamps the start to the length. */
  function Drop(s: string, n: nat): (r: string)
    ensures |r| == if n <= |s| then |s| - n else 0
  {
    if n <= |s| then s[n..] else []
  }

  function TrimStart(s: string): (r: string)
    ensures |r| <= |s| && r == s[|s| - |r|..]
    ensures r == [] || !IsSpace(r[0])
    ensures forall k :: 0 <= k < |s| - |r| ==> IsSpace(s[k])
  {
    if s != [] && IsSpace(s[0]) then TrimStart(s[1..]) else s
  }

  function TrimEnd(s: string): (r: string)
    ensures |r| <= |s| && r == s[..|r|]
    ensures r == [] || !IsSpace(r[|r| - 1])
    ensures forall k :: |r| <= k < |s| ==> IsSpace(s[k])
  {
    if s != [] && IsSpace(s[|s| - 1]) then TrimEnd(s[..|s| - 1]) else s
  }

  /** `String.prototype.trim`: the slice left after dropping white space at both ends. */
  function Trim(s: string): (r: string)
    ensures r == [] || (!IsSpace(r[0]) && !IsSpace(r[|r| - 1]))
  {
    TrimBothEnds(s);
    TrimEnd(TrimStart(s))
  }

  lemma TrimBothEnds(s: string)
    ensures var r := TrimEnd(TrimStart(s)); r == [] || (!IsSpace(r[0]) && !IsSpace(r[|r| - 1]))
  {
    var t := TrimStart(s);
    var r := TrimEnd(t);
    assert r != [] ==> r[0] == t[0];
  }

  /** A string with no white space at either end is its own trim, also after one more leading space. */
  lemma TrimmedFixed(s: string)
    requires s == [] || (!IsSpace(s[0]) && !IsSpace(s[|s| - 1]))
    ensures Trim(s) == s && Trim(" " + s) == s
  {
    assert TrimStart(s) == s;
    assert TrimEnd(s) == s;
    assert (" " + s)[1..] == s;
    assert TrimStart(" " + s) == TrimStart(s);
  }

  lemma NoSpaceTrimmed(s: string)
    requires forall k :: 0 <= k < |s| ==> !IsSpace(s[k])
    ensures TrimStart(s) == s && TrimEnd(s) == s
  {
    if s != [] {
      assert !IsSpace(s[0]) && !IsSpace(s[|s| - 1]);
    }
  }

  function DigitChar(d: nat): (c: char)
    requires d < 10
    ensures IsAsciiDigit(c)
  {
    ('0' as int + d) as char
  }

  /** `String(n)` for a non-negative integer: its decimal digits. */
  function NatToString(n: nat): (r: string)
    ensures r != []
  {
    if n < 10 then [DigitChar(n)] else NatToString(n / 10) + [DigitChar(n % 10)]
  }

  lemma {:induction false} NatToStringDigits(n: nat)
    ensures forall k :: 0 <= k < |NatToString(n)| ==> IsAsciiDigit(NatToString(n)[k])
  {
    if n >= 10 {
      NatToStringDigits(n / 10);
    }
  }

  /** `String(n)` for an integer: an optional minus sign and the decimal digits. */
  function IntToString(n: int): (r: string)
    ensures r != []
  {
    if n < 0 then "-" + NatToString(-n) else NatToString(n)
  }

  /** Decimal digits, after a minus sign for a negative number. */
  lemma IntToStringDigits(n: int)
    ensures var r := IntToString(n);
      forall k :: 0 <= k < |r| ==> IsAsciiDigit(r[k]) || (k == 0 && r[k] == '-')
  {
    NatToStringDigits(if n < 0 then -n else n);
  }

  /** The number a string of decimal digits denotes, most significant digit first. */
  function DigitsValue(s: string): int {
    if s == [] then 0 else DigitsValue(s[..|s| - 1]) * 10 + (s[|s| - 1] as int - '0' as int)
  }

  /** `Number(s)` on an optional minus sign followed by decimal digits. */
  function IntValue(s: string): int {
    if s != [] && s[0] == '-' then -DigitsValue(s[1..]) else DigitsValue(s)
  }

  /** Reading the decimal text of a natural number back gives the number. */
  lemma {:induction false} NatToStringValue(n: nat)
    ensures DigitsValue(NatToString(n)) == n
  {
    if n >= 10 {
      var s := NatToString(n);
      assert s[..|s| - 1] == NatToString(n / 10);
      NatToStringValue(n / 10);
    }
  }

  /** Reading the text of an integer back gives the integer. */
  lemma IntToStringValue(n: int)
    ensures IntValue(IntToString(n)) == n
  {
    if n < 0 {
      assert IntToString(n)[1..] == NatToString(-n);
      NatToStringValue(-n);
    } else {
      NatToStringDigits(n);
      NatToStringValue(n);
    }
  }

  /** `Array.prototype.join`. */
  function Join(parts: seq<string>, sep: string): string
  {
    if parts == [] then "" else if |parts| == 1 then parts[0] else parts[0] + sep + Join(parts[1..], sep)
  }

  /** The number of occurrences of `c` in `s`. */
  function Count(s: string, c: char): (n: nat)
    ensures n <= |s|
  {
    if s == [] then 0 else (if s[0] == c then 1 else 0) + Count(s[1..], c)
  }

  /** A slice is its first element followed by the rest of the slice. */
  lemma ConsSlice<T>(s: seq<T>, i: nat, j: nat, rest: seq<T>)
    requires i < j <= |s|
    ensures [s[i]] + (s[i + 1..j] + rest) == s[i..j] + rest
  {
    assert s[i..j] == [s[i]] + s[i + 1..j];
  }

  lemma SliceFromZero<T>(s: seq<T>, e: nat)
    requires e <= |s|
    ensures s[0..e] == s[..e]
  {
  }

  /** `ConsSlice` after a common prefix. */
  lemma PrefixConsSlice<T>(pre: seq<T>, s: seq<T>, i: nat, j: nat, rest: seq<T>)
    requires i < j <= |s|
    ensures pre + [s[i]] + (s[i + 1..j] + rest) == pre + s[i..j] + rest
  {
    ConsSlice(s, i, j, rest);
    assert pre + [s[i]] + (s[i + 1..j] + rest) == pre + ([s[i]] + (s[i + 1..j] + rest));
  }

  lemma {:induction false} CountAppend(a: string, b: string, c: char)
    ensures Count(a + b, c) == Count(a, c) + Count(b, c)
  {
    if a == [] {
      assert a + b == b;
    } else {
      assert (a + b)[1..] == a[1..] + b;
      CountAppend(a[1..], b, c);
    }
  }
}
