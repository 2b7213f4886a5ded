/**
 * The handful of Python string operations the password generator relies on,
 * restricted to ASCII: `str.strip()`, `str.lower()`, `str.isdigit()`,
 * `int()` on a digit string, `str(n)` and right alignment as in `f"{i:>2}"`.
 */
module PyText {

  /** The ASCII characters Python's `str.isspace` accepts, hence what `strip()` removes. */
  predicate IsSpace(c: char) {
    c == ' ' || c == '\t' || c == '\n' || c == '\r' || c == '\U{0B}' || c == '\U{0C}'
    || ('\U{1C}' <= c <= '\U{1F}')
  }

  predicate AllSpace(s: string) {
    forall k :: 0 <= k < |s| ==> IsSpace(s[k])
  }

  /** `s.lstrip()`: drop the leading whitespace. */
  function TrimLeft(s: string): string {
    if s != [] && IsSpace(s[0]) then TrimLeft(s[1..]) else s
  }

  /** `s.rstrip()`: drop the trailing whitespace. */
  function TrimRight(s: string): string {
    if s != [] && IsSpace(s[|s| - 1]) then TrimRight(s[..|s| - 1]) else s
  }

  /** `s.strip()`: the text between the leading and the trailing whitespace. */
  function Strip(s: string): string {
    TrimRight(TrimLeft(s))
  }

  /** `lstrip()` removes a whitespace prefix and stops at the first other character. */
  lemma {:induction false} TrimLeftSpec(s: string)
    ensures var r := TrimLeft(s);
      |r| <= |s| && r == s[|s| - |r|..] && AllSpace(s[..|s| - |r|]) && (r == [] || !IsSpace(r[0]))
  {
    if s != [] && IsSpace(s[0]) {
      TrimLeftSpec(s[1..]);
      var r := TrimLeft(s[1..]);
      assert s[..|s| - |r|] == [s[0]] + s[1..][..|s| - 1 - |r|];
    }
  }

  /** `rstrip()` removes a whitespace suffix and stops at the last other character. */
  lemma {:induction false} TrimRightSpec(s: string)
    ensures var r := TrimRight(s);
      |r| <= |s| && r == s[..|r|] && AllSpace(s[|r|..]) && (r == [] || !IsSpace(r[|r| - 1]))
  {
    if s != [] && IsSpace(s[|s| - 1]) {
      TrimRightSpec(s[..|s| - 1]);
      var r := TrimRight(s[..|s| - 1]);
      assert s[|r|..] == s[..|s| - 1][|r|..] + [s[|s| - 1]];
    }
  }

  /**
   * What `strip()` keeps neither starts nor ends with whitespace, and what it
   * removes is whitespace on either side of it.
   */
  lemma StripSplits(s: string) returns (pre: string, post: string)
    ensures s == pre + Strip(s) + post && AllSpace(pre) && AllSpace(post)
    ensures Strip(s) == [] || (!IsSpace(Strip(s)[0]) && !IsSpace(Strip(s)[|Strip(s)| - 1]))
  {
    var t := TrimLeft(s);
    TrimLeftSpec(s);
    var r := TrimRight(t);
    TrimRightSpec(t);
    pre, post := s[..|s| - |t|], t[|r|..];
    assert s == pre + r + post;
    if r != [] {
      assert r[0] == t[0];
    }
  }

  lemma {:induction false} TrimLeftPadded(pre: string, rest: string)
    requires AllSpace(pre)
    requires rest == [] || !IsSpace(rest[0])
    ensures TrimLeft(pre + rest) == rest
  {
    if pre != [] {
      assert (pre + rest)[1..] == pre[1..] + rest;
      TrimLeftPadded(pre[1..], rest);
    }
  }

  lemma {:induction false} TrimRightPadded(rest: string, post: string)
    requires AllSpace(post)
    requires rest == [] || !IsSpace(rest[|rest| - 1])
    ensures TrimRight(rest + post) == rest
  {
    if post != [] {
      assert (rest + post)[..|rest + post| - 1] == rest + post[..|post| - 1];
      TrimRightPadded(rest, post[..|post| - 1]);
    }
  }

  /** Stripping recovers any text that is padded with whitespace on both sides. */
  lemma StripPadded(pre: string, core: string, post: string)
    requires AllSpace(pre) && AllSpace(post)
    requires core == [] || (!IsSpace(core[0]) && !IsSpace(core[|core| - 1]))
    ensures Strip(pre + core + post) == core
  {
    if core == [] {
      assert pre + core + post == pre + post;
      assert AllSpace(pre + post);
      TrimLeftPadded(pre + post, []);
      assert pre + post + [] == pre + post;
    } else {
      assert pre + core + post == pre + (core + post);
      TrimLeftPadded(pre, core + post);
      TrimRightPadded(core, post);
    }
  }

  /** `c.lower()` on ASCII: only 'A'..'Z' change. */
  function ToLower(c: char): char {
    if 'A' <= c <= 'Z' then (c as int + 32) as char else c
  }

  function LowerString(s: string): string {
    seq(|s|, k requires 0 <= k < |s| => ToLower(s[k]))
  }

  /**
   * `lower()` leaves no 'A'..'Z' behind, turns each of them into its
   * lowercase letter and keeps every other character.
   */
  lemma LowerStringSpec(s: string)
    ensures var r := LowerString(s);
      && |r| == |s|
      && (forall k :: 0 <= k < |r| ==> !('A' <= r[k] <= 'Z'))
      && (forall k :: 0 <= k < |s| && 'A' <= s[k] <= 'Z' ==> r[k] as int == s[k] as int + 32)
      && (forall k :: 0 <= k < |s| && !('A' <= s[k] <= 'Z') ==> r[k] == s[k])
  {
  }

  /** Two strings lowercase alike exactly when they agree up to ASCII case, letter by letter. */
  lemma LowerStringCaseless(s: string, t: string)
    ensures LowerString(s) == LowerString(t) <==>
      |s| == |t| && forall k :: 0 <= k < |s| ==> CaseMatch(s[k], t[k])
  {
    if |s| == |t| && forall k :: 0 <= k < |s| ==> CaseMatch(s[k], t[k]) {
      assert forall k :: 0 <= k < |s| ==> LowerString(s)[k] == LowerString(t)[k];
    }
    if LowerString(s) == LowerString(t) {
      assert |s| == |LowerString(s)|;
      forall k | 0 <= k < |s| ensures CaseMatch(s[k], t[k]) {
        assert LowerString(s)[k] == LowerString(t)[k];
      }
    }
  }

  /** The same character, or the same ASCII letter in the two cases. */
  predicate CaseMatch(a: char, b: char) {
    a == b
    || ('a' <= a <= 'z' && b as int == a as int - 32)
    || ('a' <= b <= 'z' && a as int == b as int - 32)
  }

  /** `c.isdigit()` on ASCII. */
  predicate IsDigit(c: char) {
    '0' <= c <= '9'
  }

  predicate AllDigits(s: string) {
    forall k :: 0 <= k < |s| ==> IsDigit(s[k])
  }

  /** `s.isdigit()`: false on the empty string. */
  predicate IsDigitString(s: string) {
    |s| > 0 && AllDigits(s)
  }

  function DigitValue(c: char): nat
    requires IsDigit(c)
  {
    c as int - '0' as int
  }

  function DigitChar(d: nat): (c: char)
    requires d < 10
    ensures IsDigit(c) && DigitValue(c) == d
  {
    ('0' as int + d) as char
  }

  /** `int(s)` for a string of decimal digits; leading zeros are allowed. */
  function DecimalValue(s: string): nat
    requires AllDigits(s)
  {
    if s == [] then 0 else 10 * DecimalValue(s[..|s| - 1]) + DigitValue(s[|s| - 1])
  }

  /** `str(n)`: the decimal numeral of n, without leading zeros. */
  function NatToString(n: nat): (r: string)
    ensures IsDigitString(r)
    ensures r[0] == '0' ==> n == 0
    ensures |r| == 1 <==> n < 10
  {
    if n < 10 then [DigitChar(n)] else NatToString(n / 10) + [DigitChar(n % 10)]
  }

  /** `format(s, '>w')`: right-align s in a field of at least w characters. */
  function RightAlign(s: string, width: nat): (r: string)
    ensures |r| == if |s| < width then width else |s|
    ensures r[|r| - |s|..] == s && forall k :: 0 <= k < |r| - |s| ==> r[k] == ' '
  {
    if |s| < width then seq(width - |s|, _ => ' ') + s else s
  }

  /** A right-aligned string is a run of spaces followed by the string itself. */
  lemma RightAlignSplits(s: string, width: nat) returns (pad: string)
    ensures RightAlign(s, width) == pad + s && AllSpace(pad)
  {
    var r := RightAlign(s, width);
    pad := r[..|r| - |s|];
    assert r == pad + r[|r| - |s|..];
  }

  /** Stripping a space-padded numeral leaves the numeral. */
  lemma NumeralStrips(pad: string, digits: string)
    requires AllSpace(pad) && IsDigitString(digits)
    ensures Strip(pad + digits) == digits
  {
    assert IsDigit(digits[0]) && IsDigit(digits[|digits| - 1]);
    assert pad + digits + [] == pad + digits;
    StripPadded(pad, digits, []);
  }

  /** Reading back a numeral gives the number. */
  lemma {:induction false} DecimalOfNatToString(n: nat)
    ensures DecimalValue(NatToString(n)) == n
  {
    var r := NatToString(n);
    if n >= 10 {
      assert r[..|r| - 1] == NatToString(n / 10);
      DecimalOfNatToString(n / 10);
    }
  }

  /** Leading zeros do not change the value: `int("0007") == 7`. */
  lemma {:induction false} LeadingZero(s: string)
    requires AllDigits(s)
    ensures AllDigits(['0'] + s) && DecimalValue(['0'] + s) == DecimalValue(s)
  {
    if s != [] {
      var t := ['0'] + s;
      assert t[..|t| - 1] == ['0'] + s[..|s| - 1];
      LeadingZero(s[..|s| - 1]);
    }
  }

  /** A numeral is determined by its value once leading zeros are ruled out. */
  lemma {:induction false} NatToStringOfDecimal(s: string)
    requires IsDigitString(s) && (s[0] == '0' ==> |s| == 1)
    ensures NatToString(DecimalValue(s)) == s
  {
    if |s| > 1 {
      var init := s[..|s| - 1];
      NatToStringOfDecimal(init);
      PositiveValue(init);
      assert DecimalValue(s) / 10 == DecimalValue(init);
      assert DecimalValue(s) % 10 == DigitValue(s[|s| - 1]);
    }
  }

  lemma {:induction false} PositiveValue(s: string)
    requires IsDigitString(s) && s[0] != '0'
    ensures DecimalValue(s) > 0
  {
    if |s| > 1 {
      PositiveValue(s[..|s| - 1]);
    }
  }
}
