/**
  Worked instances of the interpreter's behaviour on concrete templates and
  data.
*/
module Examples {
  import opened Base
  import opened Results
  import opened Numbers
  import opened Format
  import opened Interpreter
  import opened Classification
  import opened Directives
  import opened Scan

  /** Two context bytes 01 02 read little-endian are 0x0201. */
  lemma TwoByteValue()
    ensures NumFromContext([1, 2], 0, 2) == Ok(513)
  {
    var ctx: seq<byte> := [1, 2];
    assert ctx[0..2] == ctx;
    assert LittleEndian(ctx) == 1 + 256 * LittleEndian([2]);
  }

  /** The n family writes small values alone and larger ones in hex with the decimal value after. */
  lemma HybridForms()
    ensures Hybrid(5) == "5"
    ensures Hybrid(10) == "0xA (10)"
  {
    assert Decimal(10) == Numeral(1, 10) + [DigitChar(0)];
  }

  /**
    "n0 \u00e9" is four characters but five bytes: the %nnnnnn test slices
    six bytes of it and fails before the n family is tried.
  */
  lemma FiveByteLine()
    ensures Classify("n0 \U{00E9}") == Err(SliceOutOfRange("n0 \U{00E9}"))
  {
    FiveByteLineFails("n0 \U{00E9}");
  }

  /**
    "n0ab\u00e9" is five characters but six bytes: it gets past that test to
    %n, which reads index 0 and consumes the letter and the digit only.
  */
  lemma SixByteLine()
    ensures Utf8Length(Letters('n', 1) + "0" + "ab\U{00E9}") == 6
    ensures Classify(Letters('n', 1) + "0" + "ab\U{00E9}") == Ok(Number(HybridStyle, 1, 0, 2))
  {
    SixBytes();
    ClassifyHybridFamily(1, "0", 0, "ab\U{00E9}");
  }

  /** Lines that only begin like a keyword, and the empty line, are unhandled commands. */
  lemma NearMissesUnhandled()
    ensures Classify("sto") == Err(Unhandled("sto"))
    ensures Classify("foo") == Err(Unhandled("foo"))
    ensures Classify("") == Err(Unhandled(""))
  {
    UnhandledLine("sto");
    UnhandledLine("foo");
    UnhandledLine("");
  }

  lemma SixBytes()
    ensures Utf8Length(Letters('n', 1) + "0" + "ab\U{00E9}") == 6
  {
    var line := "n0ab\U{00E9}";
    assert Letters('n', 1) + "0" + "ab\U{00E9}" == line;
    assert line[1..][1..][1..][1..] == "\U{00E9}";
  }

  /** "%-1" on the context 11 22 33 writes the last byte, "33". */
  lemma LastByteExample(t: string, files: map<string, seq<byte>>, c: Config)
    requires c.context == [0x11, 0x22, 0x33] && c.cursor + 3 <= |t|
    ensures Directive(t, files, c, "-1", c.cursor + 3) ==
              Ok(c.(cursor := c.cursor + 3, out := c.out + "33", log := c.log + ["command %-1"]))
  {
    LastByteLine(c);
    DecimalReadsBack(1);
    FromEndDirective(t, files, c, Decimal(1), 1, [], c.cursor + 3);
  }

  /** The line "-1" as the %-{n} form writes it, and the configuration it leads to on the context 11 22 33. */
  lemma LastByteLine(c: Config)
    requires c.context == [0x11, 0x22, 0x33]
    ensures "-" + Decimal(1) + [] == "-1" && c.cursor + 1 + |"-" + Decimal(1) + []| == c.cursor + 3
    ensures c.(cursor := c.cursor + 2 + |Decimal(1)|, out := c.out + Hex2(c.context[|c.context| - 1]),
               log := c.log + ["command %" + ("-" + Decimal(1) + [])]) ==
            c.(cursor := c.cursor + 3, out := c.out + "33", log := c.log + ["command %-1"])
  {
    assert Decimal(1) == "1";
    assert "-" + Decimal(1) + [] == "-1";
    assert Hex2(0x33) == "33";
    assert "command %" + "-1" == "command %-1";
  }

  /** A dump of 33 bytes is a full line of 32 groups and a line with the last byte. */
  lemma ThirtyThreeBytes(ctx: seq<byte>)
    requires |ctx| == 33
    ensures BytesDump(ctx) == Octets(ctx[..32]) + "\n" + Octets(ctx[32..]) + "\n"
    ensures |BytesDump(ctx)| == 3 * 33 + 2
  {
    assert DumpLines(ctx[32..]) == Octets(ctx[32..]) + "\n";
  }

  /** The directive line `line` placed after `before` and followed by `after`. */
  lemma Placed(t: string, before: string, line: string, after: string)
    requires t == before + "%" + line + after
    requires '\n' !in line && (after == [] || after[0] == '\n') && |line| > 0 && line[0] != '%'
    ensures DirectiveAt(t, |before|, line, after)
  {
    assert t[|before|..] == "%" + line + after;
  }

  /** Four bytes 0A 0B 0C 0D read little-endian and written by the x family. */
  lemma FourBytesInHex()
    ensures Render(HexStyle, LittleEndian([10, 11, 12, 13])) == "0xD0C0B0A"
  {
    var data: seq<byte> := [10, 11, 12, 13];
    assert LittleEndian(data) == 0x0D0C0B0A;
    assert UpperHex(0x0D0C0B0A) == "D0C0B0A";
  }

  /** The template of the four-byte round trip. */
  function FourByteTemplate(path: string): string {
    "%file " + path + "\n%next 4\n%xxxx0\n%empty\n"
  }

  /** Where the directives of the four-byte template stand, for a file name of n characters. */
  predicate FourByteShape(t: string, path: string) {
    var n := |path|;
    && n > 0 && |t| == 29 + n
    && DirectiveAt(t, 0, "file " + path, "\n%next 4\n%xxxx0\n%empty\n")
    && DirectiveAt(t, 7 + n, "next " + Decimal(4), "\n%xxxx0\n%empty\n")
    && DirectiveAt(t, 15 + n, Letters('x', 4) + Decimal(0) + [], "\n%empty\n")
    && t[21 + n] == '\n'
    && DirectiveAt(t, 22 + n, "empty", "\n")
  }

  lemma FourByteLayout(path: string)
    requires |path| > 0 && '\n' !in path
    ensures FourByteShape(FourByteTemplate(path), path)
  {
    FileLineAt(path);
    NextLineAt(path);
    HexLineAt(path);
    EmptyLineAt(path);
  }

  /** The %next line follows the %file line. */
  lemma NextLineAt(path: string)
    ensures DirectiveAt(FourByteTemplate(path), 7 + |path|, "next " + Decimal(4), "\n%xxxx0\n%empty\n")
  {
    assert Decimal(4) == "4";
    Placed(FourByteTemplate(path), "%file " + path + "\n", "next 4", "\n%xxxx0\n%empty\n");
  }

  /** The %xxxx0 line follows the %next line. */
  lemma HexLineAt(path: string)
    ensures DirectiveAt(FourByteTemplate(path), 15 + |path|, Letters('x', 4) + Decimal(0) + [], "\n%empty\n")
  {
    assert Decimal(0) == "0" && Letters('x', 4) == "xxxx";
    Placed(FourByteTemplate(path), "%file " + path + "\n%next 4\n", "xxxx0", "\n%empty\n");
  }

  /** The %empty line closes the template, after the newline of the %xxxx0 line. */
  lemma EmptyLineAt(path: string)
    ensures var t := FourByteTemplate(path);
            |t| == 29 + |path| && t[21 + |path|] == '\n' && DirectiveAt(t, 22 + |path|, "empty", "\n")
  {
    Placed(FourByteTemplate(path), "%file " + path + "\n%next 4\n%xxxx0\n", "empty", "\n");
  }

  /** The %file line opens the four-byte template. */
  lemma FileLineAt(path: string)
    requires |path| > 0 && '\n' !in path
    ensures DirectiveAt(FourByteTemplate(path), 0, "file " + path, "\n%next 4\n%xxxx0\n%empty\n")
  {
    var l1 := "file " + path;
    assert '\n' !in l1 by {
      assert forall j :: 5 <= j < |l1| ==> l1[j] == path[j - 5];
    }
    Placed(FourByteTemplate(path), "", l1, "\n%next 4\n%xxxx0\n%empty\n");
  }

  /** A successful directive pass hands the run to its result. */
  lemma DirectiveLink(t: string, files: map<string, seq<byte>>, c: Config, line: string, rest: string, d: Config)
    requires DirectiveAt(t, c.cursor, line, rest)
    requires Directive(t, files, c, line, c.cursor + 1 + |line|) == Ok(d)
    ensures RunFrom(t, files, c) == RunFrom(t, files, d)
  {
    RunThroughDirective(t, files, c, line, rest);
  }

  /** At a %file line naming a file that exists, the run goes on after the line with the file as the data. */
  lemma FilePass(t: string, files: map<string, seq<byte>>, c: Config, path: string, rest: string)
    requires DirectiveAt(t, c.cursor, "file " + path, rest) && |path| > 0 && path in files
    ensures RunFrom(t, files, c) ==
            RunFrom(t, files, c.(cursor := c.cursor + 1 + |"file " + path| + 1, data := files[path],
                                 log := c.log + ["command %" + ("file " + path)]))
  {
    FileDirective(t, files, c, path, c.cursor + 1 + |"file " + path|);
    DirectiveLink(t, files, c, "file " + path, rest,
                  c.(cursor := c.cursor + 1 + |"file " + path| + 1, data := files[path],
                     log := c.log + ["command %" + ("file " + path)]));
  }

  /** At a %next line whose count the data covers, the run goes on after the line with those bytes as the context. */
  lemma NextPass(t: string, files: map<string, seq<byte>>, c: Config, n: nat, rest: string)
    requires DirectiveAt(t, c.cursor, "next " + Decimal(n), rest) && n <= |c.data|
    ensures RunFrom(t, files, c) ==
            RunFrom(t, files, c.(cursor := c.cursor + 1 + |"next " + Decimal(n)| + 1,
                                 context := c.data[..n], data := c.data[n..],
                                 log := c.log + ["command %" + ("next " + Decimal(n))]))
  {
    DecimalReadsBack(n);
    NextDirective(t, files, c, Decimal(n), n, c.cursor + 1 + |"next " + Decimal(n)|);
    DirectiveLink(t, files, c, "next " + Decimal(n), rest,
                  c.(cursor := c.cursor + 1 + |"next " + Decimal(n)| + 1, context := c.data[..n], data := c.data[n..],
                     log := c.log + ["command %" + ("next " + Decimal(n))]));
  }

  /** At "%xxxx0" over a context of at least four bytes, the run goes on after the digit with their hex value written. */
  lemma HexPass(t: string, files: map<string, seq<byte>>, c: Config, rest: string)
    requires DirectiveAt(t, c.cursor, Letters('x', 4) + Decimal(0) + [], rest) && 4 <= |c.context|
    ensures RunFrom(t, files, c) ==
            RunFrom(t, files, c.(cursor := c.cursor + 1 + (4 + |Decimal(0)|),
                                 out := c.out + Render(HexStyle, LittleEndian(c.context[0..4])),
                                 log := c.log + ["command %" + (Letters('x', 4) + Decimal(0) + [])]))
  {
    var line := Letters('x', 4) + Decimal(0) + [];
    assert FamilyStyle('x') == HexStyle;
    DecimalReadsBack(0);
    LetterDirective(t, files, c, 'x', 4, Decimal(0), 0, [], c.cursor + 1 + |line|);
    DirectiveLink(t, files, c, line, rest,
                  c.(cursor := c.cursor + 1 + (4 + |Decimal(0)|),
                     out := c.out + Render(HexStyle, LittleEndian(c.context[0..4])),
                     log := c.log + ["command %" + line]));
  }

  /** At a %empty line with no data left, the run goes on after the line. */
  lemma EmptyPass(t: string, files: map<string, seq<byte>>, c: Config, rest: string)
    requires DirectiveAt(t, c.cursor, "empty", rest) && c.data == []
    ensures RunFrom(t, files, c) ==
            RunFrom(t, files, c.(cursor := c.cursor + 6 + 1, log := c.log + ["command %" + "empty"]))
  {
    EmptyDirective(t, files, c, c.cursor + 6);
    DirectiveLink(t, files, c, "empty", rest, c.(cursor := c.cursor + 6 + 1, log := c.log + ["command %" + "empty"]));
  }

  /** The configurations the loop passes through on the four-byte template, and where each stands. */
  lemma FourByteConfigs(files: map<string, seq<byte>>, path: string, data: seq<byte>,
                        c0: Config, c1: Config, c2: Config, c3: Config, c4: Config, c5: Config)
    requires files == map[path := data] && |data| == 4
    requires c0 == Initial()
    requires c1 == c0.(cursor := c0.cursor + 1 + |"file " + path| + 1, data := files[path],
                       log := c0.log + ["command %" + ("file " + path)])
    requires c2 == c1.(cursor := c1.cursor + 1 + |"next " + Decimal(4)| + 1,
                       context := c1.data[..4], data := c1.data[4..],
                       log := c1.log + ["command %" + ("next " + Decimal(4))])
    requires c3 == c2.(cursor := c2.cursor + 1 + (4 + |Decimal(0)|),
                       out := c2.out + Render(HexStyle, LittleEndian(c2.context[0..4])),
                       log := c2.log + ["command %" + (Letters('x', 4) + Decimal(0) + [])])
    requires c4 == c3.(cursor := c3.cursor + |EscapeChar('\n')|, out := c3.out + ['\n'])
    requires c5 == c4.(cursor := c4.cursor + 6 + 1, log := c4.log + ["command %" + "empty"])
    ensures c1.cursor == 7 + |path| && c2.cursor == 15 + |path| && c3.cursor == 21 + |path|
    ensures c4.cursor == 22 + |path| && c5.cursor == 29 + |path|
    ensures 4 <= |c1.data| && 4 <= |c2.context| && c4.data == []
    ensures c5.out == Render(HexStyle, LittleEndian(data)) + "\n"
    ensures c5.log == ["command %" + ("file " + path), "command %" + ("next " + Decimal(4)),
                       "command %" + (Letters('x', 4) + Decimal(0) + []), "command %" + "empty"]
  {
    assert Decimal(4) == "4" && Decimal(0) == "0";
    assert c1.data == data && c2.context == data && c2.data == [];
    assert c2.context[0..4] == data;
    assert "" + Render(HexStyle, LittleEndian(data)) == Render(HexStyle, LittleEndian(data));
    assert [] + ["command %" + ("file " + path)] + ["command %" + ("next " + Decimal(4))] +
           ["command %" + (Letters('x', 4) + Decimal(0) + [])] + ["command %" + "empty"] ==
           ["command %" + ("file " + path), "command %" + ("next " + Decimal(4)),
            "command %" + (Letters('x', 4) + Decimal(0) + []), "command %" + "empty"];
  }

  // The run over the four-byte template from each of its configurations
  // to the end, built from the last pass backwards.

  lemma FromEmpty(t: string, files: map<string, seq<byte>>, c4: Config, c5: Config)
    requires DirectiveAt(t, c4.cursor, "empty", "\n") && c4.data == []
    requires c5 == c4.(cursor := c4.cursor + 6 + 1, log := c4.log + ["command %" + "empty"])
    requires c5.cursor == |t|
    ensures RunFrom(t, files, c4) == Ok(c5)
  {
    RunAtEnd(t, files, c5);
    EmptyPass(t, files, c4, "\n");
  }

  lemma FromNewline(t: string, files: map<string, seq<byte>>, c3: Config, c4: Config, c5: Config)
    requires c3.cursor < |t| && t[c3.cursor] == '\n'
    requires c4 == c3.(cursor := c3.cursor + |EscapeChar('\n')|, out := c3.out + ['\n'])
    requires DirectiveAt(t, c4.cursor, "empty", "\n") && c4.data == []
    requires c5 == c4.(cursor := c4.cursor + 6 + 1, log := c4.log + ["command %" + "empty"])
    requires c5.cursor == |t|
    ensures RunFrom(t, files, c3) == Ok(c5)
  {
    FromEmpty(t, files, c4, c5);
    EscapedPass(t, files, c3, '\n');
  }

  lemma FromHex(t: string, files: map<string, seq<byte>>, c2: Config, c3: Config, c4: Config, c5: Config)
    requires DirectiveAt(t, c2.cursor, Letters('x', 4) + Decimal(0) + [], "\n%empty\n") && 4 <= |c2.context|
    requires c3 == c2.(cursor := c2.cursor + 1 + (4 + |Decimal(0)|),
                       out := c2.out + Render(HexStyle, LittleEndian(c2.context[0..4])),
                       log := c2.log + ["command %" + (Letters('x', 4) + Decimal(0) + [])])
    requires c3.cursor < |t| && t[c3.cursor] == '\n'
    requires c4 == c3.(cursor := c3.cursor + |EscapeChar('\n')|, out := c3.out + ['\n'])
    requires DirectiveAt(t, c4.cursor, "empty", "\n") && c4.data == []
    requires c5 == c4.(cursor := c4.cursor + 6 + 1, log := c4.log + ["command %" + "empty"])
    requires c5.cursor == |t|
    ensures RunFrom(t, files, c2) == Ok(c5)
  {
    FromNewline(t, files, c3, c4, c5);
    HexPass(t, files, c2, "\n%empty\n");
  }

  lemma FromNext(t: string, files: map<string, seq<byte>>,
                 c1: Config, c2: Config, c3: Config, c4: Config, c5: Config)
    requires DirectiveAt(t, c1.cursor, "next " + Decimal(4), "\n%xxxx0\n%empty\n") && |c1.data| == 4
    requires c2 == c1.(cursor := c1.cursor + 1 + |"next " + Decimal(4)| + 1,
                       context := c1.data[..4], data := c1.data[4..],
                       log := c1.log + ["command %" + ("next " + Decimal(4))])
    requires DirectiveAt(t, c2.cursor, Letters('x', 4) + Decimal(0) + [], "\n%empty\n")
    requires c3 == c2.(cursor := c2.cursor + 1 + (4 + |Decimal(0)|),
                       out := c2.out + Render(HexStyle, LittleEndian(c2.context[0..4])),
                       log := c2.log + ["command %" + (Letters('x', 4) + Decimal(0) + [])])
    requires c3.cursor < |t| && t[c3.cursor] == '\n'
    requires c4 == c3.(cursor := c3.cursor + |EscapeChar('\n')|, out := c3.out + ['\n'])
    requires DirectiveAt(t, c4.cursor, "empty", "\n")
    requires c5 == c4.(cursor := c4.cursor + 6 + 1, log := c4.log + ["command %" + "empty"])
    requires c5.cursor == |t|
    ensures RunFrom(t, files, c1) == Ok(c5)
  {
    assert 4 <= |c2.context| && c4.data == [];
    FromHex(t, files, c2, c3, c4, c5);
    NextPass(t, files, c1, 4, "\n%xxxx0\n%empty\n");
  }

  /** The loop passes the five configurations in turn and ends in the last. */
  lemma FourByteChain(t: string, files: map<string, seq<byte>>, path: string,
                      c0: Config, c1: Config, c2: Config, c3: Config, c4: Config, c5: Config)
    requires |path| > 0 && path in files && |files[path]| == 4
    requires DirectiveAt(t, c0.cursor, "file " + path, "\n%next 4\n%xxxx0\n%empty\n")
    requires c1 == c0.(cursor := c0.cursor + 1 + |"file " + path| + 1, data := files[path],
                       log := c0.log + ["command %" + ("file " + path)])
    requires DirectiveAt(t, c1.cursor, "next " + Decimal(4), "\n%xxxx0\n%empty\n")
    requires c2 == c1.(cursor := c1.cursor + 1 + |"next " + Decimal(4)| + 1,
                       context := c1.data[..4], data := c1.data[4..],
                       log := c1.log + ["command %" + ("next " + Decimal(4))])
    requires DirectiveAt(t, c2.cursor, Letters('x', 4) + Decimal(0) + [], "\n%empty\n")
    requires c3 == c2.(cursor := c2.cursor + 1 + (4 + |Decimal(0)|),
                       out := c2.out + Render(HexStyle, LittleEndian(c2.context[0..4])),
                       log := c2.log + ["command %" + (Letters('x', 4) + Decimal(0) + [])])
    requires c3.cursor < |t| && t[c3.cursor] == '\n'
    requires c4 == c3.(cursor := c3.cursor + |EscapeChar('\n')|, out := c3.out + ['\n'])
    requires DirectiveAt(t, c4.cursor, "empty", "\n")
    requires c5 == c4.(cursor := c4.cursor + 6 + 1, log := c4.log + ["command %" + "empty"])
    requires c5.cursor == |t|
    ensures RunFrom(t, files, c0) == Ok(c5)
  {
    FromNext(t, files, c1, c2, c3, c4, c5);
    FilePass(t, files, c0, path, "\n%next 4\n%xxxx0\n%empty\n");
  }

  /**
    The loop on a template of the four-byte shape loads the file, takes its
    four bytes, writes them in hex with the newline after the directive,
    finds no data left, and ends with the four directive lines logged.
  */
  lemma FourByteRunFrom(t: string, path: string, data: seq<byte>)
    requires FourByteShape(t, path) && |data| == 4
    ensures Run(t, map[path := data]) ==
              Ok(Transcript(Render(HexStyle, LittleEndian(data)) + "\n",
                            ["command %" + ("file " + path), "command %" + ("next " + Decimal(4)),
                             "command %" + (Letters('x', 4) + Decimal(0) + []), "command %" + "empty"]))
  {
    var files := map[path := data];
    var c0 := Initial();
    var c1 := c0.(cursor := c0.cursor + 1 + |"file " + path| + 1, data := files[path],
                  log := c0.log + ["command %" + ("file " + path)]);
    var c2 := c1.(cursor := c1.cursor + 1 + |"next " + Decimal(4)| + 1,
                  context := c1.data[..4], data := c1.data[4..],
                  log := c1.log + ["command %" + ("next " + Decimal(4))]);
    var c3 := c2.(cursor := c2.cursor + 1 + (4 + |Decimal(0)|),
                  out := c2.out + Render(HexStyle, LittleEndian(c2.context[0..4])),
                  log := c2.log + ["command %" + (Letters('x', 4) + Decimal(0) + [])]);
    var c4 := c3.(cursor := c3.cursor + |EscapeChar('\n')|, out := c3.out + ['\n']);
    var c5 := c4.(cursor := c4.cursor + 6 + 1, log := c4.log + ["command %" + "empty"]);
    FourByteConfigs(files, path, data, c0, c1, c2, c3, c4, c5);
    FourByteChain(t, files, path, c0, c1, c2, c3, c4, c5);
  }

  /**
    A round trip: load a file of four bytes, take them all as
    the context, write them as one 4-byte number in hex, and check that no
    data is left.
  */
  lemma FourByteHexRun(path: string, data: seq<byte>)
    requires |path| > 0 && '\n' !in path && |data| == 4
    ensures Run(FourByteTemplate(path), map[path := data]) ==
              Ok(Transcript(Render(HexStyle, LittleEndian(data)) + "\n",
                            ["command %" + ("file " + path), "command %" + ("next " + Decimal(4)),
                             "command %" + (Letters('x', 4) + Decimal(0) + []), "command %" + "empty"]))
  {
    FourByteLayout(path);
    FourByteRunFrom(FourByteTemplate(path), path, data);
  }

  /** Where the directives of the leftover-data template stand. */
  lemma LeftoverLayout(path: string)
    requires |path| > 0 && '\n' !in path
    ensures var t := "%file " + path + "\n%empty\n";
            && DirectiveAt(t, 0, "file " + path, "\n%empty\n")
            && DirectiveAt(t, 7 + |path|, "empty", "\n")
  {
    var t := "%file " + path + "\n%empty\n";
    var l1 := "file " + path;
    assert '\n' !in l1 by {
      assert forall j :: 5 <= j < |l1| ==> l1[j] == path[j - 5];
    }
    Placed(t, "", l1, "\n%empty\n");
    Placed(t, "%file " + path + "\n", "empty", "\n");
  }

  /** A %empty check with data still unread stops the run. */
  lemma LeftoverDataFails(path: string, data: seq<byte>)
    requires |path| > 0 && '\n' !in path && |data| > 0
    ensures Run("%file " + path + "\n%empty\n", map[path := data]) == Err(LeftoverBytes(data))
  {
    var t := "%file " + path + "\n%empty\n";
    var files := map[path := data];
    var n := |path|;
    var l1 := "file " + path;
    LeftoverLayout(path);
    var c0 := Initial();
    var c1 := Config(7 + n, data, [], "", [] + ["command %" + l1]);
    FileDirective(t, files, c0, path, 6 + n);
    DirectiveLink(t, files, c0, l1, "\n%empty\n", c1);
    EmptyDirective(t, files, c1, 13 + n);
    RunThroughDirective(t, files, c1, "empty", "\n");
  }
}
