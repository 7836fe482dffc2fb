/** String helpers standing in for the few pieces of Python's `str` and `int`
    behaviour the system relies on: ASCII lower-casing, `strip`, `int(...)` on a
    decimal string, `str(...)` of an integer, the substring test `in`, and `repr`
    of a plain string. Strings are `seq<char>`; only ASCII case mapping is modelled. */
module Text {
  import opened Wrappers

  predicate IsDigit(c: char) {
    '0' <= c <= '9'
  }

  predicate IsUpper(c: char) {
    'A' <= c <= 'Z'
  }

  /** The characters of Python 2's `string.whitespace`. */
  predicate IsSpace(c: char) {
    c == ' ' || c == '\t' || c == '\n' || c == '\r' || c == 11 as char || c == 12 as char
  }

  function LowerChar(c: char): char {
    if IsUpper(c) then (c as int + 32) as char else c
  }

  /** Python 2 `str.lower()` on ASCII text. */
  function Lower(s: string): string {
    seq(|s|, i requires 0 <= i < |s| => LowerChar(s[i]))
  }

  /** Lower-casing text without an upper-case letter changes nothing. */
  lemma LowerUnchanged(s: string)
    requires forall i :: 0 <= i < |s| ==> !IsUpper(s[i])
    ensures Lower(s) == s
  {
  }

  /** Every character of `s` is one of `allowed`. */
  predicate AllIn(s: string, allowed: string) {
    forall i :: 0 <= i < |s| ==> s[i] in allowed
  }

  /** Python's `needle in hay` for two strings: a substring test. */
  predicate Contains(hay: string, needle: string)
    decreases |hay|
  {
    needle <= hay || (|hay| > 0 && Contains(hay[1..], needle))
  }

  /** Python `repr` of a string without quotes or backslashes in it. */
  function Repr(s: string): string {
    "'" + s + "'"
  }

  /** `s.split(c)[0]`: the part of `s` before the first `c`. */
  function Before(s: string, c: char): (r: string)
    ensures r <= s
    ensures c !in r
    ensures |r| < |s| ==> s[|r|] == c
  {
    if |s| == 0 || s[0] == c then "" else [s[0]] + Before(s[1..], c)
  }

  /** `s.replace(c, '')`. */
  function Without(s: string, c: char): (r: string)
    ensures c !in r
    ensures forall x :: x != c ==> (x in r <==> x in s)
  {
    if |s| == 0 then ""
    else if s[0] == c then Without(s[1..], c)
    else [s[0]] + Without(s[1..], c)
  }

  function TrimStart(s: string): string {
    if |s| > 0 && IsSpace(s[0]) then TrimStart(s[1..]) else s
  }

  function TrimEnd(s: string): string {
    if |s| > 0 && IsSpace(s[|s| - 1]) then TrimEnd(s[..|s| - 1]) else s
  }

  /** Python's `s.strip()`. */
  function Strip(s: string): string {
    TrimEnd(TrimStart(s))
  }

  predicate IsDigits(s: string) {
    |s| > 0 && forall i :: 0 <= i < |s| ==> IsDigit(s[i])
  }

  /** The value of a string of decimal digits, most significant first. */
  function DigitsValue(s: string): nat
    requires forall i :: 0 <= i < |s| ==> IsDigit(s[i])
  {
    if |s| == 0 then 0
    else DigitsValue(s[..|s| - 1]) * 10 + DigitValue(s[|s| - 1])
  }

  function DigitValue(c: char): nat
    requires IsDigit(c)
  {
    c as int - '0' as int
  }

  function DigitChar(d: nat): char
    requires d < 10
  {
    ('0' as int + d) as char
  }

  /** `str(n)` of a natural number: its shortest decimal form. */
  function NatToString(n: nat): string
    decreases n
  {
    if n < 10 then [DigitChar(n)] else NatToString(n / 10) + [DigitChar(n % 10)]
  }

  /** `str(i)` of an integer. */
  function IntToString(i: int): string {
    if i < 0 then "-" + NatToString(-i) else NatToString(i)
  }

  /** Python 2 `int(s)` on a byte string in base 10: surrounding whitespace is
      ignored, one optional sign, whitespace again (C's `strtoul` skips it after
      the sign that `strtol` read), then at least one ASCII digit. `None` is the
      `ValueError`. */
  function ParseInt(s: string): Option<int> {
    var t := Strip(s);
    if |t| > 0 && (t[0] == '+' || t[0] == '-') then
      var body := TrimStart(t[1..]);
      if IsDigits(body) then
        var v: int := DigitsValue(body);
        Some(if t[0] == '-' then -v else v)
      else None
    else if IsDigits(t) then Some(DigitsValue(t))
    else None
  }

  lemma {:induction false} NatToStringDigits(n: nat)
    ensures IsDigits(NatToString(n))
    ensures DigitsValue(NatToString(n)) == n
    decreases n
  {
    if n >= 10 {
      NatToStringDigits(n / 10);
      var s := NatToString(n);
      assert s[..|s| - 1] == NatToString(n / 10);
      assert s[|s| - 1] == DigitChar(n % 10);
    }
  }

  lemma StripUnpadded(s: string)
    requires |s| > 0 && !IsSpace(s[0]) && !IsSpace(s[|s| - 1])
    ensures Strip(s) == s
  {
  }

  /** `int(str(i)) == i`: the decimal rendering of an integer parses back to it. */
  lemma {:induction false} ParseIntToString(i: int)
    ensures ParseInt(IntToString(i)) == Some(i)
  {
    var n: nat := if i < 0 then -i else i;
    NatToStringDigits(n);
    var digits := NatToString(n);
    var t := IntToString(i);
    if i < 0 {
      assert t == "-" + digits;
      assert t[1..] == digits;
      assert IsDigit(digits[0]);
      assert TrimStart(t[1..]) == digits;
    } else {
      assert t == digits;
      assert IsDigit(t[0]);
    }
    StripUnpadded(t);
  }

  /** Whitespace between the sign and the digits is skipped: `int("- 5")` is -5. */
  lemma SpaceAfterSign()
    ensures ParseInt("- 5") == Some(-5)
    ensures ParseInt(" +\t7 ") == Some(7)
  {
    assert Strip("- 5") == "- 5";
    assert TrimStart(" 5") == "5";
    assert DigitsValue("5") == 5 by { assert "5"[..0] == ""; }
    assert TrimStart(" +\t7 ") == "+\t7 ";
    assert TrimEnd("+\t7 ") == "+\t7";
    assert TrimStart("\t7") == "7";
    assert DigitsValue("7") == 7 by { assert "7"[..0] == ""; }
  }

  /** For a key of at most one character the substring test is a membership
      test, and the empty key is contained in every string. */
  lemma {:induction false} ContainsShort(hay: string, needle: string)
    requires |needle| <= 1
    ensures Contains(hay, needle) <==> (needle == "" || needle[0] in hay)
    decreases |hay|
  {
    if needle != "" && |hay| > 0 {
      ContainsShort(hay[1..], needle);
      assert hay == [hay[0]] + hay[1..];
    }
  }
}
