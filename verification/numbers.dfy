/**
  Reading numbers: the digit-run parser behind every numeric directive
  (parseNumber), the signed integer conversion and field splitting behind
  %next, and the little-endian decoding of context bytes (numFromContext).
*/
module Numbers {
  import opened Base
  import opened Results

  // ---------------------------------------------------------------------
  // parseNumber
  // ---------------------------------------------------------------------

  /** Length of the maximal run of decimal digits at the start of `s`. */
  function DigitRun(s: string): (n: nat)
    ensures n <= |s|
    ensures AllDigits(s[..n])
    ensures n < |s| ==> !IsNum(s[n])
  {
    if |s| > 0 && IsNum(s[0]) then
      var m := DigitRun(s[1..]);
      assert s[..1 + m] == [s[0]] + s[1..][..m];
      1 + m
    else 0
  }

  /**
    parseNumber: the value and length of the leading digit run of `s`.
    A text that does not start with a digit is a "bad number".
  */
  function ParseNumber(s: string): (r: Result<(nat, nat)>)
    ensures r.Ok? <==> |s| > 0 && IsNum(s[0])
    ensures r.Err? ==> r.failure == BadNumber(s)
    ensures r.Ok? ==>
              var (num, span) := r.value;
              && 1 <= span <= |s|
              && AllDigits(s[..span])
              && (span == |s| || !IsNum(s[span]))
              && num == DecimalValue(s[..span])
  {
    var span := DigitRun(s);
    if span == 0 then Err(BadNumber(s))
    else Ok((DecimalValue(s[..span]), span))
  }

  // ---------------------------------------------------------------------
  // strconv.Atoi and strings.Fields, as used by %next
  // ---------------------------------------------------------------------

  /** The grammar strconv.Atoi accepts: an optional sign, then one or more decimal digits. */
  predicate IsInteger(s: string) {
    var digits := if |s| > 0 && (s[0] == '+' || s[0] == '-') then s[1..] else s;
    |digits| > 0 && AllDigits(digits)
  }

  /** strconv.Atoi on a base-10 integer.  Overflow is not modelled (see the README). */
  function Atoi(s: string): (r: Result<int>)
    ensures r.Ok? <==> IsInteger(s)
    ensures r.Err? ==> r.failure == BadCount(s)
    ensures r.Ok? ==> (r.value < 0 ==> s[0] == '-')
    ensures r.Ok? && IsNum(s[0]) ==> r.value == DecimalValue(s)
    ensures r.Ok? && s[0] == '+' ==> r.value == DecimalValue(s[1..])
    ensures r.Ok? && s[0] == '-' ==> r.value == -(DecimalValue(s[1..]) as int)
  {
    var negative := |s| > 0 && s[0] == '-';
    var digits := if |s| > 0 && (s[0] == '+' || s[0] == '-') then s[1..] else s;
    if |digits| == 0 || !AllDigits(digits) then Err(BadCount(s))
    else
      var magnitude: int := DecimalValue(digits);
      Ok(if negative then -magnitude else magnitude)
  }

  /** unicode.IsSpace, the separator test of strings.Fields. */
  predicate IsSpace(c: char) {
    || c == '\t' || c == '\n' || c == '\U{000B}' || c == '\U{000C}' || c == '\r' || c == ' '
    || c == '\U{0085}' || c == '\U{00A0}' || c == '\U{1680}'
    || ('\U{2000}' <= c <= '\U{200A}')
    || c == '\U{2028}' || c == '\U{2029}' || c == '\U{202F}' || c == '\U{205F}' || c == '\U{3000}'
  }

  /** A field: a non-empty run of non-space characters. */
  predicate IsWord(w: string) {
    |w| > 0 && forall k :: 0 <= k < |w| ==> !IsSpace(w[k])
  }

  predicate AllSpaces(s: string) {
    forall k :: 0 <= k < |s| ==> IsSpace(s[k])
  }

  /** Length of the leading run of non-space characters. */
  function WordLength(s: string): (n: nat)
    ensures n <= |s|
    ensures forall k :: 0 <= k < n ==> !IsSpace(s[k])
    ensures n < |s| ==> IsSpace(s[n])
  {
    if |s| == 0 || IsSpace(s[0]) then 0
    else 1 + WordLength(s[1..])
  }

  function Concat(ws: seq<string>): string {
    if |ws| == 0 then [] else ws[0] + Concat(ws[1..])
  }

  /** `s` with every space character dropped. */
  function RemoveSpaces(s: string): string {
    if |s| == 0 then []
    else (if IsSpace(s[0]) then [] else [s[0]]) + RemoveSpaces(s[1..])
  }

  lemma {:induction false} RemoveSpacesAppend(a: string, b: string)
    ensures RemoveSpaces(a + b) == RemoveSpaces(a) + RemoveSpaces(b)
    decreases |a|
  {
    if |a| > 0 {
      assert (a + b)[1..] == a[1..] + b;
      RemoveSpacesAppend(a[1..], b);
    } else {
      assert a + b == b;
    }
  }

  lemma {:induction false} RemoveSpacesOfWord(w: string)
    requires forall k :: 0 <= k < |w| ==> !IsSpace(w[k])
    ensures RemoveSpaces(w) == w
    decreases |w|
  {
    if |w| > 0 {
      RemoveSpacesOfWord(w[1..]);
      assert w == [w[0]] + w[1..];
    }
  }

  /**
    strings.Fields: the maximal runs of non-space characters, in order.
    Every field is a word, and together the fields are exactly the
    non-space characters of `s`.
  */
  function Fields(s: string): (r: seq<string>)
    ensures forall k :: 0 <= k < |r| ==> IsWord(r[k])
    ensures Concat(r) == RemoveSpaces(s)
    decreases |s|
  {
    if |s| == 0 then []
    else if IsSpace(s[0]) then Fields(s[1..])
    else
      var n := WordLength(s);
      var rest := Fields(s[n..]);
      assert s == s[..n] + s[n..];
      RemoveSpacesAppend(s[..n], s[n..]);
      RemoveSpacesOfWord(s[..n]);
      [s[..n]] + rest
  }

  /** Leading spaces never start a field. */
  lemma {:induction false} FieldsSkipSpaces(sep: string, rest: string)
    requires AllSpaces(sep)
    ensures Fields(sep + rest) == Fields(rest)
    decreases |sep|
  {
    if |sep| > 0 {
      assert (sep + rest)[1..] == sep[1..] + rest;
      FieldsSkipSpaces(sep[1..], rest);
    } else {
      assert sep + rest == rest;
    }
  }

  /** A word followed by at least one space is the first field, and the remainder is split on its own. */
  lemma FieldsOfWordThenSpace(w: string, sep: string, rest: string)
    requires IsWord(w)
    requires |sep| > 0 && AllSpaces(sep)
    ensures Fields(w + sep + rest) == [w] + Fields(rest)
  {
    var s := w + sep + rest;
    var n := WordLength(s);
    assert s[|w|] == sep[0];
    assert n == |w|;
    assert s[..n] == w;
    assert s[n..] == sep + rest;
    FieldsSkipSpaces(sep, rest);
  }

  /** A lone word is its own single field. */
  lemma FieldsOfWord(w: string)
    requires IsWord(w)
    ensures Fields(w) == [w]
  {
    var n := WordLength(w);
    assert w[..n] == w;
    assert w[n..] == [];
  }

  // ---------------------------------------------------------------------
  // numFromContext
  // ---------------------------------------------------------------------

  /** The reference reading of a little-endian number: the first byte is the least significant. */
  function LittleEndian(s: seq<byte>): nat {
    if |s| == 0 then 0 else s[0] + 256 * LittleEndian(s[1..])
  }

  /** The inverse of LittleEndian: the `width` low-order bytes of `v`, least significant first. */
  function ToLittleEndian(v: nat, width: nat): (s: seq<byte>)
    ensures |s| == width
  {
    if width == 0 then [] else [(v % 256) as byte] + ToLittleEndian(v / 256, width - 1)
  }

  /** context[index], or an addressing failure outside the context. */
  function ByteAt(ctx: seq<byte>, index: int): (r: Result<byte>)
    ensures r.Ok? <==> 0 <= index < |ctx|
    ensures r.Ok? ==> r.value == ctx[index]
    ensures r.Err? ==> r.failure == IndexOutOfRange(index, |ctx|)
  {
    if 0 <= index < |ctx| then Ok(ctx[index]) else Err(IndexOutOfRange(index, |ctx|))
  }

  /**
    The loop of numFromContext from byte `b` on, with `val` the bytes
    accumulated so far.  The source ORs each byte in at bit 8*b; since the
    bytes already in `val` lie below bit 8*b (LittleEndianBound), the OR
    is the sum written here.
  */
  function Accumulate(ctx: seq<byte>, index: nat, width: nat, b: nat, val: nat): (r: Result<nat>)
    requires b <= width
    ensures r.Ok? <==> b == width || index + width <= |ctx|
    ensures r.Err? ==> r == Err(IndexOutOfRange(if index + b < |ctx| then |ctx| else index + b, |ctx|))
    decreases width - b
  {
    if b == width then Ok(val)
    else if index + b >= |ctx| then Err(IndexOutOfRange(index + b, |ctx|))
    else Accumulate(ctx, index, width, b + 1, val + ctx[index + b] * Pow256(b))
  }

  lemma {:induction false} LittleEndianAppend(s: seq<byte>, x: byte)
    ensures LittleEndian(s + [x]) == LittleEndian(s) + x * Pow256(|s|)
    decreases |s|
  {
    if |s| > 0 {
      assert (s + [x])[1..] == s[1..] + [x];
      LittleEndianAppend(s[1..], x);
      var w := Pow256(|s| - 1);
      assert Pow256(|s|) == 256 * w;
      assert 256 * (LittleEndian(s[1..]) + x * w) == 256 * LittleEndian(s[1..]) + x * (256 * w);
    } else {
      assert s + [x] == [x];
    }
  }

  /** A little-endian number of `|s|` bytes is below 256^|s|. */
  lemma {:induction false} LittleEndianBound(s: seq<byte>)
    ensures LittleEndian(s) < Pow256(|s|)
    decreases |s|
  {
    if |s| > 0 {
      LittleEndianBound(s[1..]);
    }
  }

  lemma {:induction false} LittleEndianOfEncoding(v: nat, width: nat)
    requires v < Pow256(width)
    ensures LittleEndian(ToLittleEndian(v, width)) == v
    decreases width
  {
    if width > 0 {
      LittleEndianOfEncoding(v / 256, width - 1);
    }
  }

  lemma {:induction false} AccumulateDecodes(ctx: seq<byte>, index: nat, width: nat, b: nat, val: nat)
    requires b <= width
    requires index + b <= |ctx|
    requires val == LittleEndian(ctx[index..index + b])
    ensures Accumulate(ctx, index, width, b, val) ==
              if index + width <= |ctx| then Ok(LittleEndian(ctx[index..index + width]))
              else Err(IndexOutOfRange(|ctx|, |ctx|))
    decreases width - b
  {
    if b < width && index + b < |ctx| {
      assert ctx[index..index + b + 1] == ctx[index..index + b] + [ctx[index + b]];
      LittleEndianAppend(ctx[index..index + b], ctx[index + b]);
      AccumulateDecodes(ctx, index, width, b + 1, val + ctx[index + b] * Pow256(b));
    }
  }

  /**
    numFromContext: `width` bytes of the context from `index` on, read as a
    little-endian number.  Reading past the context fails at the first
    missing byte.
  */
  function NumFromContext(ctx: seq<byte>, index: nat, width: nat): (r: Result<nat>)
    ensures index + width <= |ctx| ==> r == Ok(LittleEndian(ctx[index..index + width]))
    ensures width > 0 && index + width > |ctx| ==>
              r == Err(IndexOutOfRange(if index < |ctx| then |ctx| else index, |ctx|))
    ensures width == 0 ==> r == Ok(0)
    ensures r.Ok? ==> r.value < Pow256(width)
  {
    if width == 0 then Ok(0)
    else if index > |ctx| then Err(IndexOutOfRange(index, |ctx|))
    else
      AccumulateDecodes(ctx, index, width, 0, 0);
      if index + width <= |ctx| then
        LittleEndianBound(ctx[index..index + width]);
        Accumulate(ctx, index, width, 0, 0)
      else
        Accumulate(ctx, index, width, 0, 0)
  }

  /** Decoding the little-endian encoding of a value that fits in `width` bytes gives the value back. */
  lemma NumFromContextOfEncoding(v: nat, width: nat)
    requires v < Pow256(width)
    ensures NumFromContext(ToLittleEndian(v, width), 0, width) == Ok(v)
  {
    var s := ToLittleEndian(v, width);
    assert s[0..width] == s;
    LittleEndianOfEncoding(v, width);
  }
}
