/**
  Which command the dispatch chain makes of each directive form: the
  keyword forms, the three letter families with a decimal index, %-{n} and
  %{n}; and the two forms that, as written, can never succeed.
*/
module Classification {
  import opened Base
  import opened Results
  import opened Numbers
  import opened Format
  import opened Interpreter

  // ---------------------------------------------------------------------
  // Walking the chain
  // ---------------------------------------------------------------------

  /** Arms lo..hi-1 all reject `line`, so the chain goes on from arm hi. */
  lemma {:induction false} Skip(line: string, lo: nat, hi: nat)
    requires lo <= hi <= ArmCount
    requires forall j :: lo <= j < hi ==> !Applies(Arm(j).test, line)
    ensures DispatchFrom(line, lo) == DispatchFrom(line, hi)
    decreases hi - lo
  {
    if lo < hi {
      Skip(line, lo + 1, hi);
    }
  }

  /** A line that differs from `p` at position j passes neither prefix test for `p`. */
  lemma Mismatch(line: string, p: string, j: nat)
    requires j < |p| && j < |line| && line[j] != p[j]
    ensures !StartsWith(line, p) && !StartsBefore(line, p)
  {
    if |line| >= |p| {
      assert line[..|p|][j] == line[j];
    }
  }

  /** The line fails the five keyword tests of the chain, near misses such as "sto" or "files" included. */
  predicate NoKeyword(line: string) {
    && !StartsBefore(line, "file ") && !StartsBefore(line, "next ")
    && !StartsWith(line, "empty") && !StartsWith(line, "bytes") && !StartsWith(line, "stop")
  }

  /** A line that fails the keyword tests gets past the keyword arms 0 to 4. */
  lemma PastKeywords(line: string)
    requires NoKeyword(line)
    ensures Classify(line) == DispatchFrom(line, 5)
  {
    Skip(line, 0, 5);
  }

  /** A line whose first characters begin no keyword fails every keyword test. */
  lemma NoKeywordStart(line: string)
    requires |line| > 0 && line[0] != 'f' && line[0] != 'e' && line[0] != 'b' && line[0] != 's'
    requires line[0] != 'n' || (|line| > 1 && line[1] != 'e')
    ensures NoKeyword(line)
  {
    Mismatch(line, "file ", 0);
    if line[0] == 'n' {
      Mismatch(line, "next ", 1);
    } else {
      Mismatch(line, "next ", 0);
    }
    Mismatch(line, "empty", 0);
    Mismatch(line, "bytes", 0);
    Mismatch(line, "stop", 0);
  }

  /** A line not starting with '-' gets past arm 11. */
  lemma PastFromEnd(line: string)
    requires |line| == 0 || line[0] != '-'
    ensures DispatchFrom(line, 11) == DispatchFrom(line, 12)
  {
    if |line| > 0 {
      Mismatch(line, "-", 0);
    }
    Skip(line, 11, 12);
  }

  /** A line of any length but five bytes gets past arm 18. */
  lemma PastFiveLong(line: string)
    requires Utf8Length(line) != 5
    ensures DispatchFrom(line, 18) == DispatchFrom(line, 19)
  {
    Skip(line, 18, 19);
  }

  // ---------------------------------------------------------------------
  // The letter families
  // ---------------------------------------------------------------------

  /** The first (six-letter) arm of a family. */
  function FamilyBase(c: char): nat
    requires IsFamily(c)
  {
    if c == 'd' then 5 else if c == 'x' then 12 else 19
  }

  /** The arms of a family stand in order from six letters down to one. */
  lemma FamilyArm(c: char, k: nat)
    requires IsFamily(c) && 1 <= k <= 6
    ensures Arm(FamilyBase(c) + 6 - k) == LetterArm(c, k)
  {
  }

  /** A line not starting with `c` gets past all six arms of c's family. */
  lemma PastFamily(line: string, c: char)
    requires IsFamily(c) && (|line| == 0 || line[0] != c)
    ensures DispatchFrom(line, FamilyBase(c)) == DispatchFrom(line, FamilyBase(c) + 6)
  {
    var base := FamilyBase(c);
    forall j | base <= j < base + 6
      ensures !Applies(Arm(j).test, line)
    {
      FamilyArm(c, base + 6 - j);
      if |line| > 0 {
        Mismatch(line, Arm(j).test.name, 0);
      }
    }
    Skip(line, base, base + 6);
  }

  /**
    A line starting with exactly k letters `c` and more text gets past the
    longer names of c's family, and the k-letter arm reads its index.
  */
  lemma WithinFamily(line: string, c: char, k: nat)
    requires IsFamily(c) && 1 <= k <= 6
    requires k < |line| && line[k] != c
    requires forall j :: 0 <= j < k ==> line[j] == c
    ensures DispatchFrom(line, FamilyBase(c)) ==
              NumericArgument(line, FamilyStyle(c), k, if c == 'x' && k == 5 then 4 else k)
  {
    var base := FamilyBase(c);
    forall j | base <= j < base + 6 - k
      ensures !Applies(Arm(j).test, line)
    {
      FamilyArm(c, base + 6 - j);
      Mismatch(line, Arm(j).test.name, k);
    }
    Skip(line, base, base + 6 - k);
    FamilyArm(c, k);
    assert line[..k] == Letters(c, k);
    assert DispatchFrom(line, base + 6 - k) == Act(LetterArm(c, k), line);
  }

  /** A line that fails the keyword tests and starts with neither 'd' nor '-' reaches the x family. */
  lemma ReachesHex(line: string)
    requires NoKeyword(line)
    requires |line| == 0 || (line[0] != 'd' && line[0] != '-')
    ensures Classify(line) == DispatchFrom(line, 12)
  {
    PastKeywords(line);
    PastFamily(line, 'd');
    PastFromEnd(line);
  }

  /**
    A line of any byte length but five that fails the keyword tests and
    starts with none of 'd', '-', 'x' reaches the n family.
  */
  lemma ReachesHybrid(line: string)
    requires NoKeyword(line)
    requires |line| == 0 || (line[0] != 'd' && line[0] != '-' && line[0] != 'x')
    requires Utf8Length(line) != 5
    ensures Classify(line) == DispatchFrom(line, 19)
  {
    ReachesHex(line);
    PastFamily(line, 'x');
    PastFiveLong(line);
  }

  /** The command line of a numeric directive: k letters, the digits `d` of an index n, then non-digits. */
  lemma NumericLine(c: char, k: nat, d: string, n: nat, tail: string)
    requires 1 <= k && !IsNum(c)
    requires SpellsDecimal(d, n)
    requires tail == [] || !IsNum(tail[0])
    ensures var line := Letters(c, k) + d + tail;
            && k < |line| && line[0] == c && line[k] != c && IsNum(line[k])
            && (forall j :: 0 <= j < k ==> line[j] == c)
            && ParseNumber(line[k..]) == Ok((n, |d|))
            && forall style :: NumericArgument(line, style, k, k) == Ok(Number(style, k, n, k + |d|))
  {
    var line := Letters(c, k) + d + tail;
    ParseNumberOfDigits(d, n, tail);
    assert line[k] == d[0];
    assert line[k..] == d + tail;
  }

  /**
    %d..%dddddd followed by the digits of an index: the decimal form of
    that width, consuming the letters and every digit, leading zeros
    included, and nothing after them.
  */
  lemma ClassifyDecimalFamily(k: nat, d: string, n: nat, tail: string)
    requires 1 <= k <= 6
    requires SpellsDecimal(d, n)
    requires tail == [] || !IsNum(tail[0])
    ensures Classify(Letters('d', k) + d + tail) == Ok(Number(DecimalStyle, k, n, k + |d|))
  {
    var line := Letters('d', k) + d + tail;
    NumericLine('d', k, d, n, tail);
    assert Classify(line) == NumericArgument(line, DecimalStyle, k, k) by {
      NoKeywordStart(line);
      PastKeywords(line);
      WithinFamily(line, 'd', k);
    }
  }

  /**
    %x..%xxxx and %xxxxxx followed by the digits of an index: "0x" and the
    upper-case hex form of that width, consuming the letters and the digits.
  */
  lemma ClassifyHexFamily(k: nat, d: string, n: nat, tail: string)
    requires 1 <= k <= 6 && k != 5
    requires SpellsDecimal(d, n)
    requires tail == [] || !IsNum(tail[0])
    ensures Classify(Letters('x', k) + d + tail) == Ok(Number(HexStyle, k, n, k + |d|))
  {
    var line := Letters('x', k) + d + tail;
    NumericLine('x', k, d, n, tail);
    assert Classify(line) == NumericArgument(line, HexStyle, k, k) by {
      NoKeywordStart(line);
      ReachesHex(line);
      assert FamilyBase('x') == 12 && FamilyStyle('x') == HexStyle;
      WithinFamily(line, 'x', k);
    }
  }

  /**
    %n..%nnnnnn followed by the digits of an index, on a command line of
    any byte length but five: the hybrid form of that width.
  */
  lemma ClassifyHybridFamily(k: nat, d: string, n: nat, tail: string)
    requires 1 <= k <= 6
    requires SpellsDecimal(d, n)
    requires tail == [] || !IsNum(tail[0])
    requires Utf8Length(Letters('n', k) + d + tail) != 5
    ensures Classify(Letters('n', k) + d + tail) == Ok(Number(HybridStyle, k, n, k + |d|))
  {
    var line := Letters('n', k) + d + tail;
    NumericLine('n', k, d, n, tail);
    HybridLine(line, k);
  }

  /** A line of k letters 'n' and more text, of any byte length but five, is read by the k-letter arm. */
  lemma HybridLine(line: string, k: nat)
    requires 1 <= k <= 6 && k < |line| && line[k] != 'n' && IsNum(line[k])
    requires forall j :: 0 <= j < k ==> line[j] == 'n'
    requires Utf8Length(line) != 5
    ensures Classify(line) == NumericArgument(line, HybridStyle, k, k)
  {
    NoKeywordStart(line);
    ReachesHybrid(line);
    WithinFamily(line, 'n', k);
  }

  /** %-{n}: the n-th byte from the end, consuming the '-' and the digits. */
  lemma ClassifyFromEnd(d: string, n: nat, tail: string)
    requires SpellsDecimal(d, n)
    requires tail == [] || !IsNum(tail[0])
    ensures Classify("-" + d + tail) == Ok(FromEnd(n, 1 + |d|))
  {
    var line := "-" + d + tail;
    NumericLine('-', 1, d, n, tail);
    assert Letters('-', 1) == "-";
    NoKeywordStart(line);
    PastKeywords(line);
    PastFamily(line, 'd');
    assert line[..1] == "-";
    assert DispatchFrom(line, 11) == Act(Form(Longer("-"), FromEndAction), line);
  }

  /** %{n}: byte n as two hex digits, consuming the digits; a five-byte line faults first. */
  lemma ClassifyPlain(d: string, n: nat, tail: string)
    requires SpellsDecimal(d, n)
    requires tail == [] || !IsNum(tail[0])
    requires Utf8Length(d + tail) != 5
    ensures Classify(d + tail) == Ok(Plain(n, |d|))
  {
    var line := d + tail;
    ParseNumberOfDigits(d, n, tail);
    assert line[0] == d[0] && IsNum(line[0]);
    NoKeywordStart(line);
    ReachesHybrid(line);
    PastFamily(line, 'n');
    assert Arm(25) == Form(DigitFirst, PlainAction);
    assert DispatchFrom(line, 25) == Act(Arm(25), line);
  }

  /**
    %xxxxx reads its index from offset 4 of the command line, which holds
    the fifth 'x'; whatever follows the name, it fails as a bad number.
  */
  lemma WidthFiveHexFails(rest: string)
    requires |rest| > 0 && rest[0] != 'x'
    ensures Classify(Letters('x', 5) + rest) == Err(BadNumber("x" + rest))
  {
    var line := Letters('x', 5) + rest;
    assert line[5] == rest[0];
    NoKeywordStart(line);
    ReachesHex(line);
    WithinFamily(line, 'x', 5);
    assert line[4..] == "x" + rest;
  }

  /**
    The %nnnnnn test slices six bytes of any line longer than four bytes, so
    a command line of five bytes that reaches it fails, whatever it holds.
    Five bytes may be fewer than five characters when some are not ASCII.
  */
  lemma FiveByteLineFails(line: string)
    requires Utf8Length(line) == 5
    requires line[0] != 'd' && line[0] != '-' && line[0] != 'x'
    requires !StartsWith(line, "empty") && !StartsWith(line, "bytes") && !StartsWith(line, "stop")
    ensures Classify(line) == Err(SliceOutOfRange(line))
  {
    Skip(line, 0, 5);
    PastFamily(line, 'd');
    PastFromEnd(line);
    PastFamily(line, 'x');
    assert DispatchFrom(line, 18) == Act(Form(FiveLong, SliceFault), line);
  }

  /**
    A line that fails the keyword tests (near misses such as "sto"
    included), is empty or starts with no family letter, '-' or digit, and
    is not five bytes long, matches no arm: an unhandled command.
  */
  lemma UnhandledLine(line: string)
    requires NoKeyword(line)
    requires |line| == 0 || (line[0] != 'n' && line[0] != 'd' && line[0] != '-' && line[0] != 'x' && !IsNum(line[0]))
    requires Utf8Length(line) != 5
    ensures Classify(line) == Err(Unhandled(line))
  {
    ReachesHybrid(line);
    PastFamily(line, 'n');
    Skip(line, 25, 26);
  }

  // ---------------------------------------------------------------------
  // The keyword forms
  // ---------------------------------------------------------------------

  /** "file P" names the file P, whatever P holds. */
  lemma ClassifyFile(path: string)
    requires |path| > 0
    ensures Classify("file " + path) == Ok(File(path))
  {
    var line := "file " + path;
    assert line[..5] == "file " && line[5..] == path;
  }

  /** "next W" with a single field W: the count W as strconv.Atoi reads it, or a bad count. */
  lemma ClassifyNext(w: string)
    requires IsWord(w)
    ensures Classify("next " + w) == if IsInteger(w) then Ok(Next(Atoi(w).value)) else Err(BadCount(w))
  {
    var line := "next " + w;
    assert line[..5] == "next ";
    Mismatch(line, "file ", 0);
    FieldsOfWordThenSpace("next", " ", w);
    FieldsOfWord(w);
    assert "next" + " " + w == line;
    Skip(line, 0, 1);
  }

  /** "next" followed by spaces only has no count field, and fails. */
  lemma NextWithoutCount(spaces: string)
    requires |spaces| >= 2 && spaces[0] == ' ' && AllSpaces(spaces)
    ensures Classify("next" + spaces) == Err(MissingCount("next" + spaces))
  {
    var line := "next" + spaces;
    assert line[..5] == "next ";
    Mismatch(line, "file ", 0);
    FieldsOfWordThenSpace("next", spaces, "");
    assert "next" + spaces + "" == line;
    assert Fields("") == [];
    Skip(line, 0, 1);
  }

  /** "empty", possibly followed by more text. */
  lemma ClassifyEmpty(tail: string)
    ensures Classify("empty" + tail) == Ok(Empty)
  {
    var line := "empty" + tail;
    assert line[..5] == "empty";
    Mismatch(line, "file ", 0);
    Mismatch(line, "next ", 0);
    Skip(line, 0, 2);
  }

  /** "bytes", possibly followed by more text. */
  lemma ClassifyBytes(tail: string)
    ensures Classify("bytes" + tail) == Ok(Bytes)
  {
    var line := "bytes" + tail;
    assert line[..5] == "bytes";
    Mismatch(line, "file ", 0);
    Mismatch(line, "next ", 0);
    Mismatch(line, "empty", 0);
    Skip(line, 0, 3);
  }

  /** "stop", possibly followed by more text. */
  lemma ClassifyStop(tail: string)
    ensures Classify("stop" + tail) == Ok(Stop)
  {
    var line := "stop" + tail;
    assert line[..4] == "stop";
    Mismatch(line, "file ", 0);
    Mismatch(line, "next ", 0);
    Mismatch(line, "empty", 0);
    Mismatch(line, "bytes", 0);
    Skip(line, 0, 4);
  }
}
