/**
  The renderings the interpreter writes: fmt's "%d" and "%X" (a numeral
  with no padding), "%02x" (two lower-case hex digits), the hybrid form of
  the n family, and the %bytes dump.  Each rendering is paired with the
  reading that undoes it.
*/
module Format {
  import opened Base
  import opened Results
  import opened Numbers

  // ---------------------------------------------------------------------
  // Numerals
  // ---------------------------------------------------------------------

  /** The digit for `d` as fmt writes it in upper case ("%X", and "%d" for d < 10). */
  function DigitChar(d: nat): (c: char)
    requires d < 16
    ensures IsHexDigit(c) && HexDigitValue(c) == d
    ensures IsNum(c) || 'A' <= c <= 'F'
  {
    if d < 10 then ('0' as int + d) as char else ('A' as int + d - 10) as char
  }

  /** The digit for `d` as fmt writes it in lower case ("%x"). */
  function LowerDigitChar(d: nat): (c: char)
    requires d < 16
    ensures IsHexDigit(c) && HexDigitValue(c) == d
    ensures IsNum(c) || 'a' <= c <= 'f'
  {
    var upper := DigitChar(d);
    if d < 10 then upper else (upper as int - 'A' as int + 'a' as int) as char
  }

  /** Digits and upper-case letters only: the alphabet fmt's "%d" and "%X" use. */
  predicate UpperDigits(s: string) {
    forall k :: 0 <= k < |s| ==> IsNum(s[k]) || 'A' <= s[k] <= 'F'
  }

  /** A numeral with no superfluous leading zero. */
  predicate Canonical(s: string, radix: nat) {
    && |s| > 0
    && AllDigitsIn(s, radix)
    && UpperDigits(s)
    && (|s| == 1 || HexDigitValue(s[0]) != 0)
  }

  /** `n` written in the given radix without padding. */
  function Numeral(n: nat, radix: nat): (s: string)
    requires 2 <= radix <= 16
    ensures |s| >= 1 && (|s| == 1 <==> n < radix)
    decreases n
  {
    if n < radix then [DigitChar(n)]
    else Numeral(n / radix, radix) + [DigitChar(n % radix)]
  }

  /** fmt's "%d". */
  function Decimal(n: nat): string {
    Numeral(n, 10)
  }

  /** fmt's "%X". */
  function UpperHex(n: nat): string {
    Numeral(n, 16)
  }

  /** Numeral is canonical and reads back as the number it was made from. */
  lemma {:induction false} NumeralRoundTrip(n: nat, radix: nat)
    requires 2 <= radix <= 16
    ensures Canonical(Numeral(n, radix), radix)
    ensures ValueIn(Numeral(n, radix), radix) == n
  {
    NumeralCanonical(n, radix);
    NumeralValue(n, radix);
  }

  lemma {:induction false} NumeralCanonical(n: nat, radix: nat)
    requires 2 <= radix <= 16
    ensures Canonical(Numeral(n, radix), radix)
    decreases n
  {
    var s := Numeral(n, radix);
    if n >= radix {
      var q := n / radix;
      QuotientSmaller(n, radix);
      NumeralCanonical(q, radix);
      var p := Numeral(q, radix);
      assert s == p + [DigitChar(n % radix)];
      assert forall k :: 0 <= k < |p| ==> s[k] == p[k];
      if q < radix {
        assert p == [DigitChar(q)];
      }
    }
  }

  lemma {:induction false} NumeralValue(n: nat, radix: nat)
    requires 2 <= radix <= 16
    ensures AllDigitsIn(Numeral(n, radix), radix)
    ensures ValueIn(Numeral(n, radix), radix) == n
    decreases n
  {
    NumeralCanonical(n, radix);
    if n >= radix {
      var q, m := n / radix, n % radix;
      QuotientSmaller(n, radix);
      NumeralValue(q, radix);
      ValueOfAppend(Numeral(q, radix), DigitChar(m), radix);
      QuotientRemainder(n, radix);
    } else {
      assert Numeral(n, radix)[..0] == [];
    }
  }

  /** Appending a digit multiplies the value by the radix and adds the digit. */
  lemma ValueOfAppend(p: string, c: char, radix: nat)
    requires AllDigitsIn(p, radix) && IsDigitIn(c, radix)
    ensures AllDigitsIn(p + [c], radix)
    ensures ValueIn(p + [c], radix) == ValueIn(p, radix) * radix + HexDigitValue(c)
  {
    assert (p + [c])[..|p|] == p;
  }

  lemma {:induction false} ValueOfLeadingNonZero(s: string, radix: nat)
    requires AllDigitsIn(s, radix)
    requires |s| > 0 && HexDigitValue(s[0]) != 0
    ensures ValueIn(s, radix) > 0
    decreases |s|
  {
    var p := s[..|s| - 1];
    if |s| > 1 {
      assert p[0] == s[0];
      ValueOfLeadingNonZero(p, radix);
      var v := ValueIn(p, radix);
      assert ValueIn(s, radix) == v * radix + HexDigitValue(s[|s| - 1]);
      ProductPositive(v, radix);
    } else {
      assert p == [];
    }
  }

  /** Euclidean division undoes appending a digit. */
  lemma DivideDigit(a: nat, radix: nat, d: nat)
    requires d < radix
    ensures (a * radix + d) / radix == a
    ensures (a * radix + d) % radix == d
  {
    var n := a * radix + d;
    var q, m := n / radix, n % radix;
    assert q * radix + m == a * radix + d;
    if q < a {
      MultipleAtLeast(a - q, radix);
    } else if q > a {
      MultipleAtLeast(q - a, radix);
    }
  }

  // Nonlinear facts, kept apart so that the solver meets them one at a time.

  lemma ProductPositive(a: nat, b: nat)
    requires a >= 1 && b >= 1
    ensures a * b >= 1
  {
  }

  lemma QuotientSmaller(n: nat, radix: nat)
    requires n >= 1 && radix >= 2
    ensures n / radix < n
  {
  }

  lemma QuotientRemainder(n: nat, radix: nat)
    requires radix >= 1
    ensures (n / radix) * radix + n % radix == n
  {
  }

  lemma MultipleAtLeast(k: nat, r: nat)
    requires k >= 1
    ensures k * r >= r
  {
  }

  /** The upper-case digit character of a value is the only one with that value. */
  lemma DigitCharUnique(c: char)
    requires IsHexDigit(c) && (IsNum(c) || 'A' <= c <= 'F')
    ensures DigitChar(HexDigitValue(c)) == c
  {
  }

  /** Every canonical numeral is the rendering of its own value. */
  lemma {:induction false} NumeralOfValue(s: string, radix: nat)
    requires 2 <= radix <= 16
    requires Canonical(s, radix)
    ensures Numeral(ValueIn(s, radix), radix) == s
    decreases |s|
  {
    var p := s[..|s| - 1];
    var c := s[|s| - 1];
    var d := HexDigitValue(c);
    var n := ValueIn(s, radix);
    DigitCharUnique(c);
    assert n == ValueIn(p, radix) * radix + d;
    if |s| == 1 {
      assert p == [];
      assert s == [c];
    } else {
      var v := ValueIn(p, radix);
      assert Canonical(p, radix) by {
        assert p[0] == s[0];
      }
      ValueOfLeadingNonZero(p, radix);
      NumeralOfValue(p, radix);
      NumeralAppend(v, radix, d);
      assert s == p + [c];
    }
  }

  /** Appending digit d to the numeral of a positive v gives the numeral of v * radix + d. */
  lemma NumeralAppend(v: nat, radix: nat, d: nat)
    requires 2 <= radix <= 16 && v >= 1 && d < radix
    ensures Numeral(v * radix + d, radix) == Numeral(v, radix) + [DigitChar(d)]
  {
    MultipleAtLeast(v, radix);
    DivideDigit(v, radix, d);
  }

  /** The decimal rendering is a digit string whose value is the number. */
  lemma DecimalReadsBack(n: nat)
    ensures AllDigits(Decimal(n))
    ensures DecimalValue(Decimal(n)) == n
    ensures |Decimal(n)| >= 1
  {
    NumeralRoundTrip(n, 10);
    var s := Decimal(n);
    forall k | 0 <= k < |s| ensures IsNum(s[k]) {
      assert IsDigitIn(s[k], 10);
    }
  }

  // ---------------------------------------------------------------------
  // Reading back what was rendered
  // ---------------------------------------------------------------------

  /** A digit string followed by a non-digit is exactly the leading digit run. */
  lemma {:induction false} DigitRunOfDigits(d: string, tail: string)
    requires AllDigits(d)
    requires tail == [] || !IsNum(tail[0])
    ensures DigitRun(d + tail) == |d|
    ensures (d + tail)[..|d|] == d
  {
    if |d| > 0 {
      assert AllDigits(d[1..]) by {
        forall k | 0 <= k < |d[1..]| ensures IsNum(d[1..][k]) {
          assert d[1..][k] == d[k + 1];
        }
      }
      DigitRunOfDigits(d[1..], tail);
      assert (d + tail)[1..] == d[1..] + tail;
      assert IsNum((d + tail)[0]) by { assert (d + tail)[0] == d[0]; }
    } else {
      assert d + tail == tail;
    }
  }

  /**
    parseNumber reads any digit string back, leading zeros included,
    stopping at the first non-digit after it: the span is the whole string.
  */
  lemma ParseNumberOfDigits(d: string, n: nat, tail: string)
    requires SpellsDecimal(d, n)
    requires tail == [] || !IsNum(tail[0])
    ensures ParseNumber(d + tail) == Ok((n, |d|))
  {
    DigitRunOfDigits(d, tail);
  }

  /** An unsigned decimal rendering is read back by strconv.Atoi. */
  lemma AtoiOfUnsigned(n: nat)
    ensures Atoi(Decimal(n)) == Ok(n)
  {
    DecimalReadsBack(n);
    var d := Decimal(n);
    assert d[0] != '+' && d[0] != '-' by {
      assert IsNum(d[0]);
    }
  }

  /** A sign followed by a digit string is read by strconv.Atoi as that string's signed value. */
  lemma AtoiOfSigned(d: string, sign: char)
    requires |d| > 0 && AllDigits(d)
    requires sign == '+' || sign == '-'
    ensures Atoi([sign] + d) == Ok(if sign == '-' then -(DecimalValue(d) as int) else DecimalValue(d))
  {
    assert ([sign] + d)[1..] == d;
  }

  /** strconv.Atoi reads a decimal rendering back, with or without a sign. */
  lemma AtoiOfDecimal(n: nat)
    ensures Atoi(Decimal(n)) == Ok(n)
    ensures Atoi("+" + Decimal(n)) == Ok(n)
    ensures Atoi("-" + Decimal(n)) == Ok(-(n as int))
  {
    AtoiOfUnsigned(n);
    DecimalReadsBack(n);
    AtoiOfSigned(Decimal(n), '+');
    AtoiOfSigned(Decimal(n), '-');
  }

  // ---------------------------------------------------------------------
  // The forms the directives write
  // ---------------------------------------------------------------------

  /** fmt's "%02x" of one byte: two lower-case hex digits, zero-padded. */
  function Hex2(b: byte): (r: string)
    ensures |r| == 2 && forall k :: 0 <= k < 2 ==> IsNum(r[k]) || 'a' <= r[k] <= 'f'
  {
    [LowerDigitChar(b / 16), LowerDigitChar(b % 16)]
  }

  /** "%02x" reads back as the byte. */
  lemma Hex2ReadsBack(b: byte)
    ensures AllDigitsIn(Hex2(b), 16) && ValueIn(Hex2(b), 16) == b
  {
    var s := Hex2(b);
    assert s[..1] == [s[0]];
    assert s[..1][..0] == [];
    assert ValueIn(s[..1], 16) == b / 16;
    assert ValueIn(s, 16) == (b / 16) * 16 + b % 16;
  }

  /** Two bytes render alike only if they are equal. */
  lemma Hex2Injective(a: byte, b: byte)
    requires Hex2(a) == Hex2(b)
    ensures a == b
  {
    Hex2ReadsBack(a);
    Hex2ReadsBack(b);
  }

  /**
    The n family's rendering: a value below 10 alone, otherwise "0x", the
    upper-case hex digits, and the decimal value in parentheses.
  */
  function Hybrid(v: nat): (r: string)
    ensures r == Decimal(v) <==> v < 10
  {
    if v < 10 then Decimal(v)
    else
      NumeralRoundTrip(v, 10);
      var r := "0x" + UpperHex(v) + " (" + Decimal(v) + ")";
      assert r[0] == '0' && Decimal(v)[0] != '0';
      r
  }

  /**
    The text "0x" h " (" e ")" of the n family for v: h a canonical hex
    numeral and e a canonical decimal numeral, both of the value v.
  */
  ghost predicate HexThenDecimal(r: string, v: nat) {
    exists h, e :: && r == "0x" + h + " (" + e + ")"
                   && Canonical(h, 16) && ValueIn(h, 16) == v
                   && Canonical(e, 10) && ValueIn(e, 10) == v
  }

  /**
    The hybrid form reads back as its value: below 10 a decimal numeral of
    it, from 10 on its hex and its decimal numeral in the fixed frame.
  */
  lemma HybridReadsBack(v: nat)
    ensures v < 10 ==> Canonical(Hybrid(v), 10) && ValueIn(Hybrid(v), 10) == v
    ensures v >= 10 ==> HexThenDecimal(Hybrid(v), v)
  {
    NumeralRoundTrip(v, 10);
    if v >= 10 {
      NumeralRoundTrip(v, 16);
      assert Hybrid(v) == "0x" + UpperHex(v) + " (" + Decimal(v) + ")";
    }
  }

  lemma {:induction false} HexValueExceedsDecimalValue(s: string)
    requires AllDigitsIn(s, 10)
    ensures AllDigitsIn(s, 16)
    ensures ValueIn(s, 16) >= ValueIn(s, 10)
    ensures |s| >= 2 && HexDigitValue(s[0]) != 0 ==> ValueIn(s, 16) > ValueIn(s, 10)
    decreases |s|
  {
    if |s| > 0 {
      var p := s[..|s| - 1];
      HexValueExceedsDecimalValue(p);
      if |s| >= 2 && HexDigitValue(s[0]) != 0 {
        assert p[0] == s[0];
        ValueOfLeadingNonZero(p, 10);
      }
    }
  }

  /**
    The hex and decimal numerals of a value coincide exactly below 10, so
    the hybrid form drops its hex part exactly when it would repeat the
    decimal one.
  */
  lemma HexEqualsDecimalIff(v: nat)
    ensures UpperHex(v) == Decimal(v) <==> v < 10
  {
    if v >= 10 {
      NumeralRoundTrip(v, 16);
      NumeralRoundTrip(v, 10);
      HexValueExceedsDecimalValue(Decimal(v));
    }
  }

  // ---------------------------------------------------------------------
  // %bytes
  // ---------------------------------------------------------------------

  /**
    The %bytes loop from byte k on: " " and two hex digits per byte, a
    newline after every 32nd byte, and at the end one more newline when
    the last line is partial.
  */
  function DumpFrom(ctx: seq<byte>, k: nat): string
    requires k <= |ctx|
    decreases |ctx| - k
  {
    if k == |ctx| then (if |ctx| % 32 != 0 then "\n" else "")
    else " " + Hex2(ctx[k]) + (if k % 32 == 31 then "\n" else "") + DumpFrom(ctx, k + 1)
  }

  /**
    What %bytes writes for the context: the reference layout of lines of
    32 octet groups, 3 characters per byte plus one newline per started line.
  */
  function BytesDump(ctx: seq<byte>): (r: string)
    ensures r == DumpLines(ctx)
    ensures |r| == 3 * |ctx| + (|ctx| + 31) / 32
  {
    DumpFromLines(ctx, 0);
    assert ctx[0..] == ctx;
    DumpLinesLength(ctx);
    DumpFrom(ctx, 0)
  }

  /** One " xx" group per byte. */
  function Octets(s: seq<byte>): string {
    if |s| == 0 then "" else " " + Hex2(s[0]) + Octets(s[1..])
  }

  /** The reference layout: lines of up to 32 octet groups, each ended by a newline. */
  function DumpLines(s: seq<byte>): string
    decreases |s|
  {
    if |s| == 0 then ""
    else if |s| <= 32 then Octets(s) + "\n"
    else Octets(s[..32]) + "\n" + DumpLines(s[32..])
  }

  lemma {:induction false} OctetsLength(s: seq<byte>)
    ensures |Octets(s)| == 3 * |s|
    decreases |s|
  {
    if |s| > 0 {
      OctetsLength(s[1..]);
    }
  }

  /** Byte j of `s` is written at offset 3j, as a space and its two hex digits. */
  lemma {:induction false} OctetAt(s: seq<byte>, j: nat)
    requires j < |s|
    ensures |Octets(s)| == 3 * |s|
    ensures Octets(s)[3 * j..3 * j + 3] == " " + Hex2(s[j])
    decreases j
  {
    OctetsLength(s);
    if j > 0 {
      OctetAt(s[1..], j - 1);
      OctetsLength(s[1..]);
      assert Octets(s)[3 * j..3 * j + 3] == Octets(s[1..])[3 * (j - 1)..3 * (j - 1) + 3];
    }
  }

  /** Peeling the first byte off a slice of octet groups. */
  lemma OctetsHead(s: seq<byte>, k: nat, e: nat)
    requires k < e <= |s|
    ensures Octets(s[k..e]) == " " + Hex2(s[k]) + Octets(s[k + 1..e])
  {
    assert s[k..e][1..] == s[k + 1..e];
  }

  /** Inside a 32-byte line (chunk m) no newline follows byte k. */
  lemma DumpFromInside(ctx: seq<byte>, k: nat, m: nat, e: nat)
    requires m >= 1 && 32 * (m - 1) <= k && k + 1 < e
    requires e == if |ctx| < 32 * m then |ctx| else 32 * m
    ensures DumpFrom(ctx, k) == " " + Hex2(ctx[k]) + DumpFrom(ctx, k + 1)
  {
    assert k % 32 == k - 32 * (m - 1);
  }

  /** The last byte of a line is followed by the line's newline. */
  lemma DumpFromLast(ctx: seq<byte>, k: nat, m: nat, e: nat)
    requires m >= 1 && 32 * (m - 1) <= k && k + 1 == e
    requires e == if |ctx| < 32 * m then |ctx| else 32 * m
    ensures DumpFrom(ctx, k) == Octets(ctx[k..e]) + "\n" + (if e == |ctx| then "" else DumpFrom(ctx, e))
  {
    OctetsHead(ctx, k, e);
    assert Octets(ctx[k + 1..e]) == "";
    if e == 32 * m {
      assert k % 32 == 31;
      if e == |ctx| {
        assert |ctx| % 32 == 0;
      }
    } else {
      assert k % 32 == k - 32 * (m - 1);
      assert |ctx| % 32 == |ctx| - 32 * (m - 1);
    }
  }

  /** The dump of the bytes from k to the end e of k's 32-byte line (chunk m). */
  lemma {:induction false} DumpFromLine(ctx: seq<byte>, k: nat, m: nat, e: nat)
    requires m >= 1 && 32 * (m - 1) <= k < e
    requires e == if |ctx| < 32 * m then |ctx| else 32 * m
    ensures DumpFrom(ctx, k) == Octets(ctx[k..e]) + "\n" + (if e == |ctx| then "" else DumpFrom(ctx, e))
    decreases e - k
  {
    if k + 1 < e {
      var group, rest := " " + Hex2(ctx[k]), Octets(ctx[k + 1..e]);
      var after := if e == |ctx| then "" else DumpFrom(ctx, e);
      DumpFromLine(ctx, k + 1, m, e);
      assert DumpFrom(ctx, k) == group + DumpFrom(ctx, k + 1) by {
        DumpFromInside(ctx, k, m, e);
      }
      assert Octets(ctx[k..e]) == group + rest by {
        OctetsHead(ctx, k, e);
      }
      assert group + (rest + "\n" + after) == group + rest + "\n" + after;
    } else {
      DumpFromLast(ctx, k, m, e);
    }
  }

  lemma {:induction false} DumpFromLines(ctx: seq<byte>, m: nat)
    requires 32 * m <= |ctx|
    ensures DumpFrom(ctx, 32 * m) == DumpLines(ctx[32 * m..])
    decreases |ctx| - 32 * m
  {
    var s := ctx[32 * m..];
    if 32 * m == |ctx| {
      assert |ctx| % 32 == 0;
    } else {
      var e := if |ctx| < 32 * (m + 1) then |ctx| else 32 * (m + 1);
      DumpFromLine(ctx, 32 * m, m + 1, e);
      if e == |ctx| {
        assert ctx[32 * m..e] == s;
      } else {
        assert s[..32] == ctx[32 * m..e];
        assert s[32..] == ctx[32 * (m + 1)..];
        DumpFromLines(ctx, m + 1);
      }
    }
  }

  lemma {:induction false} DumpLinesLength(s: seq<byte>)
    ensures |DumpLines(s)| == 3 * |s| + (|s| + 31) / 32
    decreases |s|
  {
    if |s| > 32 {
      OctetsLength(s[..32]);
      DumpLinesLength(s[32..]);
    } else if |s| > 0 {
      OctetsLength(s);
    }
  }
}
