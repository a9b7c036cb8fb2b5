/**
  One pass of main's loop at each directive form: how far the cursor
  moves, what is written and logged, and when the pass fails.
*/
module Directives {
  import opened Base
  import opened Results
  import opened Numbers
  import opened Format
  import opened Interpreter
  import opened Classification

  // ---------------------------------------------------------------------
  // Locating the command line
  // ---------------------------------------------------------------------

  /** A directive's command line runs from after the marker to the next newline or the end. */
  lemma LineOf(t: string, i: nat, line: string, rest: string)
    requires i <= |t| && t[i..] == "%" + line + rest
    requires '\n' !in line
    requires rest == [] || rest[0] == '\n'
    ensures LineEnd(t, i) == i + 1 + |line|
    ensures CommandLine(t, i) == line
  {
    var e := i + 1 + |line|;
    assert t[i] == '%';
    assert forall k :: i < k < e ==> t[k] == line[k - i - 1];
    assert forall k :: i <= k < e ==> t[k] != '\n';
    assert e < |t| ==> t[e] == rest[0];
    assert t[i + 1..e] == line;
  }

  /**
    From position `i`, template `t` holds the marker of a directive whose
    command line is `line`, followed by `rest`, which is empty or starts
    with the newline ending the line.
  */
  predicate DirectiveAt(t: string, i: nat, line: string, rest: string) {
    && i <= |t| && t[i..] == "%" + line + rest
    && '\n' !in line && (rest == [] || rest[0] == '\n')
    && |line| > 0 && line[0] != '%'
  }

  /** At a directive the marker is not doubled, and main's line scan finds exactly `line`. */
  lemma DirectiveLine(t: string, i: nat, line: string, rest: string)
    requires DirectiveAt(t, i, line, rest)
    ensures i + 1 < |t| && t[i] == '%' && t[i + 1] != '%'
    ensures CommandLine(t, i) == line && LineEnd(t, i) == i + 1 + |line|
  {
    LineOf(t, i, line, rest);
    assert t[i] == '%' && t[i + 1] == line[0];
  }

  /** A step at a directive logs its command line and applies it, in Directive. */
  lemma StepAtDirective(t: string, files: map<string, seq<byte>>, c: Config, line: string, rest: string)
    requires DirectiveAt(t, c.cursor, line, rest)
    ensures Step(t, files, c) == Directive(t, files, c, line, c.cursor + 1 + |line|)
  {
    DirectiveLine(t, c.cursor, line, rest);
  }

  // ---------------------------------------------------------------------
  // The numeric directives.  Each lemma below is about the directive whose
  // marker is at `c.cursor` and whose command line ends at `eol`.
  // ---------------------------------------------------------------------

  /** A line recognised as a numeric command is logged and its value written. */
  lemma NumberDirective(t: string, files: map<string, seq<byte>>, c: Config, line: string, eol: nat,
                        style: Style, width: nat, index: nat, consumed: nat)
    requires eol == c.cursor + 1 + |line| <= |t|
    requires Classify(line) == Ok(Number(style, width, index, consumed))
    ensures var r := Directive(t, files, c, line, eol);
            && (r.Ok? <==> index + width <= |c.context|)
            && (r.Ok? ==>
                  r == Ok(c.(cursor := c.cursor + 1 + consumed,
                             out := c.out + Render(style, LittleEndian(c.context[index..index + width])),
                             log := c.log + ["command %" + line])))
  {
    assert Directive(t, files, c, line, eol) ==
           WriteNumber(c.(log := c.log + ["command %" + line]), style, width, index, consumed);
  }

  /** A line recognised as a byte command (%{n} or %-{n}) is logged and the byte at `index` written. */
  lemma ByteDirective(t: string, files: map<string, seq<byte>>, c: Config, line: string, eol: nat,
                      index: int, consumed: nat)
    requires eol == c.cursor + 1 + |line| <= |t|
    requires (0 <= index && Classify(line) == Ok(Plain(index, consumed))) ||
             (index <= |c.context| && Classify(line) == Ok(FromEnd(|c.context| - index, consumed)))
    ensures var r := Directive(t, files, c, line, eol);
            && (r.Ok? <==> 0 <= index < |c.context|)
            && (r.Ok? ==>
                  r == Ok(c.(cursor := c.cursor + 1 + consumed, out := c.out + Hex2(c.context[index]),
                             log := c.log + ["command %" + line])))
  {
    assert Directive(t, files, c, line, eol) == WriteByte(c.(log := c.log + ["command %" + line]), index, consumed);
  }

  /**
    %d..%dddddd, %x..%xxxx, %xxxxxx and %n..%nnnnnn with the digits `d` of
    an index n: the k bytes from n, read little-endian, are written in the
    family's style, and the cursor moves past the marker, the letters and
    every digit (leading zeros included) only, so the rest of the line is
    copied as text.  The step fails when the bytes lie outside the context.
  */
  lemma LetterDirective(t: string, files: map<string, seq<byte>>, c: Config,
                        f: char, k: nat, d: string, n: nat, tail: string, eol: nat)
    requires IsFamily(f) && 1 <= k <= 6
    requires f == 'x' ==> k != 5
    requires f == 'n' ==> Utf8Length(Letters(f, k) + d + tail) != 5
    requires SpellsDecimal(d, n)
    requires tail == [] || !IsNum(tail[0])
    requires eol == c.cursor + 1 + |Letters(f, k) + d + tail| <= |t|
    ensures var r := Directive(t, files, c, Letters(f, k) + d + tail, eol);
            && (r.Ok? <==> n + k <= |c.context|)
            && (r.Ok? ==>
                  r == Ok(c.(cursor := c.cursor + 1 + (k + |d|),
                             out := c.out + Render(FamilyStyle(f), LittleEndian(c.context[n..n + k])),
                             log := c.log + ["command %" + (Letters(f, k) + d + tail)])))
  {
    LetterCommand(f, k, d, n, tail);
    NumberDirective(t, files, c, Letters(f, k) + d + tail, eol, FamilyStyle(f), k, n, k + |d|);
  }

  /** The command of a letter directive with the digits of an index, whichever its family. */
  lemma LetterCommand(f: char, k: nat, d: string, n: nat, tail: string)
    requires IsFamily(f) && 1 <= k <= 6
    requires f == 'x' ==> k != 5
    requires f == 'n' ==> Utf8Length(Letters(f, k) + d + tail) != 5
    requires SpellsDecimal(d, n)
    requires tail == [] || !IsNum(tail[0])
    ensures Classify(Letters(f, k) + d + tail) == Ok(Number(FamilyStyle(f), k, n, k + |d|))
  {
    if f == 'd' {
      ClassifyDecimalFamily(k, d, n, tail);
    } else if f == 'x' {
      ClassifyHexFamily(k, d, n, tail);
    } else {
      ClassifyHybridFamily(k, d, n, tail);
    }
  }

  /** %xxxxx, whatever follows the name, stops the run as a bad number. */
  lemma WidthFiveHexDirective(t: string, files: map<string, seq<byte>>, c: Config, rest: string, eol: nat)
    requires |rest| > 0 && rest[0] != 'x'
    requires eol == c.cursor + 1 + |Letters('x', 5) + rest| <= |t|
    ensures Directive(t, files, c, Letters('x', 5) + rest, eol) == Err(BadNumber("x" + rest))
  {
    WidthFiveHexFails(rest);
  }

  /** %-{n}: the n-th byte from the end of the context, as two lower-case hex digits. */
  lemma FromEndDirective(t: string, files: map<string, seq<byte>>, c: Config, d: string, n: nat, tail: string, eol: nat)
    requires SpellsDecimal(d, n)
    requires tail == [] || !IsNum(tail[0])
    requires eol == c.cursor + 1 + |"-" + d + tail| <= |t|
    ensures var r := Directive(t, files, c, "-" + d + tail, eol);
            && (r.Ok? <==> 1 <= n <= |c.context|)
            && (r.Ok? ==>
                  r == Ok(c.(cursor := c.cursor + 2 + |d|,
                             out := c.out + Hex2(c.context[|c.context| - n]),
                             log := c.log + ["command %" + ("-" + d + tail)])))
  {
    ClassifyFromEnd(d, n, tail);
    ByteDirective(t, files, c, "-" + d + tail, eol, |c.context| - n, 1 + |d|);
  }

  /** %{n}: byte n of the context as two lower-case hex digits, unless the line is five bytes long. */
  lemma PlainDirective(t: string, files: map<string, seq<byte>>, c: Config, d: string, n: nat, tail: string, eol: nat)
    requires SpellsDecimal(d, n)
    requires tail == [] || !IsNum(tail[0])
    requires Utf8Length(d + tail) != 5
    requires eol == c.cursor + 1 + |d + tail| <= |t|
    ensures var r := Directive(t, files, c, d + tail, eol);
            && (r.Ok? <==> n < |c.context|)
            && (r.Ok? ==>
                  r == Ok(c.(cursor := c.cursor + 1 + |d|,
                             out := c.out + Hex2(c.context[n]),
                             log := c.log + ["command %" + (d + tail)])))
  {
    ClassifyPlain(d, n, tail);
    ByteDirective(t, files, c, d + tail, eol, n, |d|);
  }

  // ---------------------------------------------------------------------
  // The keyword directives
  // ---------------------------------------------------------------------

  /** "%file P" replaces the data with file P's bytes and continues after the line; a missing file fails. */
  lemma FileDirective(t: string, files: map<string, seq<byte>>, c: Config, path: string, eol: nat)
    requires |path| > 0
    requires eol == c.cursor + 1 + |"file " + path| <= |t|
    ensures var r := Directive(t, files, c, "file " + path, eol);
            && (r.Ok? <==> path in files)
            && (r.Err? ==> r == Err(LoadFailed(path)))
            && (r.Ok? ==> r == Ok(c.(cursor := eol + 1, data := files[path], log := c.log + ["command %" + ("file " + path)])))
  {
    ClassifyFile(path);
  }

  /**
    "%next N" with the digits `d` of a count n (leading zeros allowed)
    takes the first n bytes of the data as the new context, leaving the
    remainder as data, and continues after the line; a count beyond the
    data fails.
  */
  lemma NextDirective(t: string, files: map<string, seq<byte>>, c: Config, d: string, n: nat, eol: nat)
    requires SpellsDecimal(d, n)
    requires eol == c.cursor + 1 + |"next " + d| <= |t|
    ensures var r := Directive(t, files, c, "next " + d, eol);
            && (r.Ok? <==> n <= |c.data|)
            && (r.Err? ==> r == Err(CountOutOfRange(n, |c.data|)))
            && (r.Ok? ==> r == Ok(c.(cursor := eol + 1, context := c.data[..n], data := c.data[n..],
                                     log := c.log + ["command %" + ("next " + d)])))
  {
    assert IsWord(d) by {
      forall j | 0 <= j < |d| ensures !IsSpace(d[j]) {
        assert IsNum(d[j]);
      }
    }
    ClassifyNext(d);
  }

  /** "-" and the digits of n make a single field that strconv.Atoi reads as -n. */
  lemma NegativeCount(d: string, n: nat)
    requires SpellsDecimal(d, n)
    ensures IsWord("-" + d) && IsInteger("-" + d)
    ensures Atoi("-" + d) == Ok(-(n as int))
  {
    var w := "-" + d;
    forall j | 0 <= j < |w| ensures !IsSpace(w[j]) {
      if j > 0 {
        assert w[j] == d[j - 1] && IsNum(d[j - 1]);
      }
    }
    assert w[1..] == d;
  }

  /** "%next -N" with N at least 1 reads a negative count, which fails whatever the data. */
  lemma NegativeNextDirective(t: string, files: map<string, seq<byte>>, c: Config, d: string, n: nat, eol: nat)
    requires SpellsDecimal(d, n) && n >= 1
    requires eol == c.cursor + 1 + |"next " + ("-" + d)| <= |t|
    ensures Directive(t, files, c, "next " + ("-" + d), eol) == Err(CountOutOfRange(-(n as int), |c.data|))
  {
    NegativeCount(d, n);
    ClassifyNext("-" + d);
  }

  /** "%empty" succeeds, writing nothing, exactly when all data has been taken. */
  lemma EmptyDirective(t: string, files: map<string, seq<byte>>, c: Config, eol: nat)
    requires eol == c.cursor + 6 <= |t|
    ensures var r := Directive(t, files, c, "empty", eol);
            && (r.Ok? <==> c.data == [])
            && (r.Err? ==> r == Err(LeftoverBytes(c.data)))
            && (r.Ok? ==> r == Ok(c.(cursor := eol + 1, log := c.log + ["command %" + "empty"])))
  {
    ClassifyEmpty([]);
    assert "empty" + [] == "empty";
  }

  /** "%bytes" writes the hex dump of the context, one line per 32 bytes, and continues after the line. */
  lemma BytesDirective(t: string, files: map<string, seq<byte>>, c: Config, eol: nat)
    requires eol == c.cursor + 6 <= |t|
    ensures Directive(t, files, c, "bytes", eol) ==
              Ok(c.(cursor := eol + 1, out := c.out + DumpLines(c.context), log := c.log + ["command %" + "bytes"]))
  {
    ClassifyBytes([]);
    assert "bytes" + [] == "bytes";
  }

  /**
    "%stop" writes the template after its line verbatim and ends the scan;
    on the last line, with no newline after it, it fails.
  */
  lemma StopDirective(t: string, files: map<string, seq<byte>>, c: Config, note: string, eol: nat)
    requires eol == c.cursor + 1 + |"stop" + note| <= |t|
    ensures var r := Directive(t, files, c, "stop" + note, eol);
            && (r.Ok? <==> eol < |t|)
            && (r.Err? ==> r == Err(StopWithoutNewline))
            && (r.Ok? ==> r == Ok(c.(cursor := |t|, out := c.out + t[eol + 1..], log := c.log + ["command %" + ("stop" + note)])))
  {
    ClassifyStop(note);
  }
}
