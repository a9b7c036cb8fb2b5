/**
  Bytes, digit characters and the numeric value of a digit string.

  The interpreter works on two alphabets: the template and the output are
  character strings, the loaded file is a sequence of octets.  Digit strings
  appear in both directions: directive arguments are read as decimal numbers,
  and decoded values are written back as decimal or hexadecimal numerals.
  The value of a numeral is defined here once, for every radix up to 16.
*/
module Base {

  /** One octet of a loaded file. */
  type byte = b: nat | b < 256

  /** The source's isNum: an ASCII decimal digit. */
  predicate IsNum(c: char) {
    '0' <= c <= '9'
  }

  /** The characters IsNum accepts are exactly the ten ASCII digits. */
  lemma IsNumDigits(c: char)
    ensures IsNum(c) <==> c in "0123456789"
  {
  }

  /** A hexadecimal digit in either case. */
  predicate IsHexDigit(c: char) {
    IsNum(c) || 'a' <= c <= 'f' || 'A' <= c <= 'F'
  }

  function HexDigitValue(c: char): (d: nat)
    requires IsHexDigit(c)
    ensures d < 16
    ensures IsNum(c) <==> d < 10
  {
    if IsNum(c) then c as int - '0' as int
    else if 'a' <= c <= 'f' then c as int - 'a' as int + 10
    else c as int - 'A' as int + 10
  }

  /** A digit of the given radix (at most 16). */
  predicate IsDigitIn(c: char, radix: nat) {
    IsHexDigit(c) && HexDigitValue(c) < radix
  }

  predicate AllDigitsIn(s: string, radix: nat) {
    forall k :: 0 <= k < |s| ==> IsDigitIn(s[k], radix)
  }

  /** Every character of `s` is a decimal digit. */
  predicate AllDigits(s: string) {
    forall k :: 0 <= k < |s| ==> IsNum(s[k])
  }

  /** The value of a numeral, most significant digit first; the empty numeral is 0. */
  function ValueIn(s: string, radix: nat): nat
    requires AllDigitsIn(s, radix)
  {
    if |s| == 0 then 0
    else ValueIn(s[..|s| - 1], radix) * radix + HexDigitValue(s[|s| - 1])
  }

  /** The value of a decimal digit string. */
  function DecimalValue(s: string): nat
    requires AllDigits(s)
  {
    assert AllDigitsIn(s, 10) by {
      forall k | 0 <= k < |s| ensures IsDigitIn(s[k], 10) {
        assert IsNum(s[k]);
      }
    }
    ValueIn(s, 10)
  }

  /**
    `d` spells `n` in decimal: a non-empty digit string of value `n`.
    Leading zeros are allowed, so "007" spells 7 as "7" does.
  */
  predicate SpellsDecimal(d: string, n: nat) {
    |d| > 0 && AllDigits(d) && DecimalValue(d) == n
  }

  /** Every character of `s` is ASCII, one byte in UTF-8. */
  predicate IsAscii(s: string) {
    forall k :: 0 <= k < |s| ==> s[k] < '\U{0080}'
  }

  /** The number of bytes UTF-8 spends on `c`: one below U+0080, two below U+0800, three below U+10000, else four. */
  function Utf8Width(c: char): (w: nat)
    ensures 1 <= w <= 4
    ensures w == 1 <==> c < '\U{0080}'
  {
    if c < '\U{0080}' then 1
    else if c < '\U{0800}' then 2
    else if c < '\U{10000}' then 3
    else 4
  }

  /**
    Go's len() of the string `s`: its length in bytes, UTF-8 encoded.  It
    equals the number of characters exactly when all of them are ASCII.
  */
  function Utf8Length(s: string): (n: nat)
    ensures |s| <= n <= 4 * |s|
    ensures n == |s| <==> IsAscii(s)
  {
    if |s| == 0 then 0
    else
      var n := Utf8Width(s[0]) + Utf8Length(s[1..]);
      assert IsAscii(s) <==> s[0] < '\U{0080}' && IsAscii(s[1..]) by {
        assert forall k :: 1 <= k < |s| ==> s[k] == s[1..][k - 1];
      }
      n
  }

  /** The byte length of a concatenation is the sum of the byte lengths. */
  lemma {:induction false} Utf8LengthAppend(a: string, b: string)
    ensures Utf8Length(a + b) == Utf8Length(a) + Utf8Length(b)
    decreases |a|
  {
    if |a| == 0 {
      assert a + b == b;
    } else {
      assert (a + b)[0] == a[0] && (a + b)[1..] == a[1..] + b;
      Utf8LengthAppend(a[1..], b);
    }
  }

  /** 256 to the power k: the weight of the k-th byte of a little-endian number. */
  function Pow256(k: nat): (p: nat)
    ensures p >= 1
  {
    if k == 0 then 1 else 256 * Pow256(k - 1)
  }
}
