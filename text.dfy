/** The .NET string primitives the core relies on: white-space tests,
    invariant lower-casing, ordinal case-insensitive comparison, decimal
    formatting of integers, EndsWith and TrimEnd. */
module Text {
  import opened Models

  /** char.IsWhiteSpace: the Unicode White_Space characters. */
  predicate IsWhiteSpace(c: char) {
    || ('\U{9}' <= c <= '\U{D}')
    || c == ' '
    || c == '\U{85}'
    || c == '\U{A0}'
    || c == '\U{1680}'
    || ('\U{2000}' <= c <= '\U{200A}')
    || c == '\U{2028}'
    || c == '\U{2029}'
    || c == '\U{202F}'
    || c == '\U{205F}'
    || c == '\U{3000}'
  }

  /** string.IsNullOrWhiteSpace */
  predicate IsNullOrWhiteSpace(s: Option<string>) {
    s.None? || forall i :: 0 <= i < |s.value| ==> IsWhiteSpace(s.value[i])
  }

  /** string.IsNullOrEmpty */
  predicate IsNullOrEmpty(s: Option<string>) {
    s.None? || s.value == ""
  }

  predicate IsUpper(c: char) {
    'A' <= c <= 'Z'
  }

  function LowerChar(c: char): char {
    if IsUpper(c) then (c as int + 32) as char else c
  }

  /** ToLowerInvariant, on the ASCII letters. */
  function ToLower(s: string): string {
    seq(|s|, i requires 0 <= i < |s| => LowerChar(s[i]))
  }

  predicate IsLowerCase(s: string) {
    forall i :: 0 <= i < |s| ==> !IsUpper(s[i])
  }

  lemma ToLowerIsLowerCase(s: string)
    ensures IsLowerCase(ToLower(s))
    ensures ToLower(ToLower(s)) == ToLower(s)
  {
  }

  /** The key StringComparer.OrdinalIgnoreCase compares by. */
  function Fold(s: string): string {
    ToLower(s)
  }

  predicate EqualsIgnoreCase(a: string, b: string) {
    Fold(a) == Fold(b)
  }

  // Decimal formatting of integers, as string interpolation of an int does.

  predicate IsDigit(c: char) {
    '0' <= c <= '9'
  }

  function DigitChar(d: nat): (c: char)
    requires d < 10
  {
    ('0' as int + d) as char
  }

  function NatToString(n: nat): string
    decreases n
  {
    if n < 10 then [DigitChar(n)] else NatToString(n / 10) + [DigitChar(n % 10)]
  }

  function IntToString(i: int): string {
    if i < 0 then "-" + NatToString(-i) else NatToString(i)
  }

  predicate AllDigits(s: string) {
    forall i :: 0 <= i < |s| ==> IsDigit(s[i])
  }

  /** The number a string of decimal digits denotes. */
  function DigitsValue(s: string): nat
    requires AllDigits(s)
  {
    if s == [] then 0
    else DigitsValue(s[..|s| - 1]) * 10 + (s[|s| - 1] as int - '0' as int)
  }

  lemma {:induction false} NatToStringDenotes(n: nat)
    ensures |NatToString(n)| >= 1
    ensures AllDigits(NatToString(n)) && IsDigit(NatToString(n)[0])
    ensures DigitsValue(NatToString(n)) == n
    decreases n
  {
    if n >= 10 {
      NatToStringDenotes(n / 10);
      var s := NatToString(n / 10) + [DigitChar(n % 10)];
      assert s[..|s| - 1] == NatToString(n / 10);
    }
  }

  /** The decimal text of an integer determines the integer. */
  lemma IntToStringInjective(a: int, b: int)
    requires IntToString(a) == IntToString(b)
    ensures a == b
  {
    NatToStringDenotes(if a < 0 then -a else a);
    NatToStringDenotes(if b < 0 then -b else b);
    if a < 0 && b < 0 {
      assert NatToString(-a) == IntToString(a)[1..] == IntToString(b)[1..] == NatToString(-b);
    } else if a < 0 || b < 0 {
      assert false;
    }
  }

  /** Decimal text holds only digits and a leading '-'. */
  lemma IntToStringIsNumeral(i: int)
    ensures forall k :: 0 <= k < |IntToString(i)| ==>
              IsDigit(IntToString(i)[k]) || (k == 0 && IntToString(i)[k] == '-')
  {
    NatToStringDenotes(if i < 0 then -i else i);
    var s := IntToString(i);
    forall k | 0 <= k < |s| ensures IsDigit(s[k]) || (k == 0 && s[k] == '-') {
      if i < 0 && k > 0 {
        assert s[k] == NatToString(-i)[k - 1];
      }
    }
  }

  /** The position of the first `c` in a text (its length when there is none). */
  function FirstIndex(s: string, c: char): (r: nat)
    ensures r <= |s|
    ensures forall i :: 0 <= i < r ==> s[i] != c
    ensures r < |s| ==> s[r] == c
  {
    if s == [] || s[0] == c then 0 else 1 + FirstIndex(s[1..], c)
  }

  lemma {:induction false} FirstIndexAfterPrefix(prefix: string, c: char, rest: string)
    requires c !in prefix
    ensures FirstIndex(prefix + [c] + rest, c) == |prefix|
  {
    if prefix != [] {
      assert (prefix + [c] + rest)[1..] == prefix[1..] + [c] + rest;
      FirstIndexAfterPrefix(prefix[1..], c, rest);
    }
  }

  /** string.EndsWith, ordinal. */
  predicate EndsWith(s: string, suffix: string) {
    |suffix| <= |s| && s[|s| - |suffix|..] == suffix
  }

  /** string.TrimEnd(c): removes every trailing occurrence of `c`. */
  function TrimEnd(s: string, c: char): string
    decreases |s|
  {
    if |s| > 0 && s[|s| - 1] == c then TrimEnd(s[..|s| - 1], c) else s
  }

  function Repeat(c: char, n: nat): string {
    seq(n, _ => c)
  }

  /** TrimEnd removes exactly the trailing run of `c`. */
  lemma {:induction false} TrimEndRemovesTrailingRun(s: string, c: char)
    ensures |TrimEnd(s, c)| <= |s|
    ensures s == TrimEnd(s, c) + Repeat(c, |s| - |TrimEnd(s, c)|)
    ensures !EndsWith(TrimEnd(s, c), [c])
    decreases |s|
  {
    if |s| > 0 && s[|s| - 1] == c {
      var t := s[..|s| - 1];
      TrimEndRemovesTrailingRun(t, c);
      var r := TrimEnd(t, c);
      assert s == t + [c];
      assert Repeat(c, |t| - |r|) + [c] == Repeat(c, |s| - |r|);
    }
  }
}
