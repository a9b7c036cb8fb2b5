/**
  The directive interpreter of main.go: a scan of the template that copies
  ordinary characters to the output and, at each '%', reads the rest of
  the line as a command, matches it against the ordered list of directive
  forms, and applies it to the data and context buffers.
*/
module Interpreter {
  import opened Base
  import opened Results
  import opened Numbers
  import opened Format

  /** How a numeric directive writes its value. */
  datatype Style =
    | DecimalStyle  // the d family: "%d"
    | HexStyle      // the x family: "0x%X"
    | HybridStyle   // the n family: Hybrid

  /** A recognised command line. */
  datatype Command =
    | File(path: string)
    | Next(count: int)
    | Empty
    | Bytes
    | Stop
      // %d..%dddddd, %x..%xxxxxx, %n..%nnnnnn: `width` bytes from `index`;
      // `consumed` counts the command letters and the argument digits
    | Number(style: Style, width: nat, index: nat, consumed: nat)
      // %-{n}: the n-th byte from the end
    | FromEnd(index: nat, consumed: nat)
      // %{n}: byte n as two hex digits
    | Plain(index: nat, consumed: nat)

  /** The loop state of main: scan position, both buffers, and what has been written. */
  datatype Config = Config(cursor: nat, data: seq<byte>, context: seq<byte>, out: string, log: seq<string>)

  /** What a successful run writes: the output and the diagnostic lines. */
  datatype Transcript = Transcript(out: string, log: seq<string>)

  /** The configuration a run starts from: nothing loaded, nothing written. */
  function Initial(): Config {
    Config(0, [], [], "", [])
  }

  /** strings.IndexByte: the position of the first `c` in `s`, or -1. */
  function IndexOf(s: string, c: char): (r: int)
    ensures -1 <= r < |s|
    ensures r == -1 <==> c !in s
    ensures r >= 0 ==> s[r] == c && c !in s[..r]
  {
    if |s| == 0 then -1
    else if s[0] == c then 0
    else
      var k := IndexOf(s[1..], c);
      assert s[1..] == s[1..][..|s| - 1];
      if k == -1 then
        assert s == [s[0]] + s[1..];
        -1
      else
        assert s[..k + 1] == [s[0]] + s[1..][..k];
        k + 1
  }

  /**
    The end of the line of the marker at `i`: the position of the next
    newline after it, or the end of the template.
  */
  function LineEnd(t: string, i: nat): (eol: nat)
    requires i < |t|
    ensures i <= eol <= |t|
    ensures eol < |t| ==> t[eol] == '\n'
    ensures forall k :: i <= k < eol ==> t[k] != '\n'
  {
    var k := IndexOf(t[i..], '\n');
    if k == -1 then
      assert forall j :: i <= j < |t| ==> t[j] == t[i..][j - i];
      |t|
    else
      assert forall j :: i <= j < i + k ==> t[j] == t[i..][..k][j - i];
      i + k
  }

  /** The numeric argument read from `line[from..]`, for a directive of `width` bytes. */
  function NumericArgument(line: string, style: Style, width: nat, from: nat): (r: Result<Command>)
    requires from <= |line|
    ensures r.Ok? <==> from < |line| && IsNum(line[from])
    ensures r.Ok? ==> r.value.Number? && r.value.style == style && r.value.width == width
    ensures r.Ok? ==> width < r.value.consumed <= width + |line| - from
    ensures r.Ok? ==> ParseNumber(line[from..]) == Ok((r.value.index, r.value.consumed - width))
    ensures r.Err? ==> r == Err(BadNumber(line[from..]))
  {
    var p :- ParseNumber(line[from..]);
    Ok(Number(style, width, p.0, width + p.1))
  }

  /** `k` copies of the command letter `c`. */
  function Letters(c: char, k: nat): (s: string)
    ensures |s| == k && forall j :: 0 <= j < k ==> s[j] == c
  {
    seq(k, _ => c)
  }

  /** The source's `len(line) >= len(p) && line[0:len(p)] == p`. */
  predicate StartsWith(line: string, p: string) {
    |line| >= |p| && line[..|p|] == p
  }

  /** The source's `len(line) > len(p) && line[0:len(p)] == p`: `p` and at least one more character. */
  predicate StartsBefore(line: string, p: string) {
    |line| > |p| && line[..|p|] == p
  }

  /** The condition of one arm of the dispatch chain. */
  datatype Test =
    | Longer(name: string)    // the name and at least one more character
    | AtLeast(name: string)   // the name, possibly followed by more
    | FiveLong                // a command line of exactly five bytes
    | DigitFirst              // a command line starting with a decimal digit

  /** What an arm of the dispatch chain makes of the command line. */
  datatype Action =
    | LoadAction
    | NextAction
    | EmptyAction
    | BytesAction
    | StopAction
      // the index is read from `line[from..]`; `from` is the name's length except for %xxxxx
    | NumericAction(style: Style, width: nat, from: nat)
    | FromEndAction
    | SliceFault
    | PlainAction

  /** One directive form: an arm of the dispatch chain. */
  datatype Form = Form(test: Test, action: Action)

  predicate Applies(test: Test, line: string) {
    match test
    case Longer(name) => StartsBefore(line, name)
    case AtLeast(name) => StartsWith(line, name)
    case FiveLong => Utf8Length(line) == 5
    case DigitFirst => |line| >= 1 && IsNum(line[0])
  }

  /**
    What an arm needs of its test for its action to be defined: the
    keyword arms slice after their names, and a numeric arm reads its index
    within the name only where the name holds no digit.
  */
  predicate Sound(f: Form) {
    match f.action
    case LoadAction => f.test == Longer("file ")
    case FromEndAction => f.test == Longer("-")
    case NumericAction(_, width, from) =>
      && 1 <= width <= 6
      && (f.test.Longer? || f.test.AtLeast?)
      && from <= |f.test.name|
      && (from == width || (from < |f.test.name| && !IsNum(f.test.name[from])))
    case _ => true
  }

  /** The number of arms in the dispatch chain. */
  const ArmCount := 26

  /** The keyword arms, in the source's order. */
  function KeywordArm(j: nat): (f: Form)
    requires j < 5
    ensures Sound(f)
  {
    match j
    case 0 => Form(Longer("file "), LoadAction)
    case 1 => Form(Longer("next "), NextAction)
    case 2 => Form(AtLeast("empty"), EmptyAction)
    case 3 => Form(AtLeast("bytes"), BytesAction)
    case _ => Form(AtLeast("stop"), StopAction)
  }

  /** The letters that name a family of numeric directives. */
  predicate IsFamily(c: char) {
    c == 'd' || c == 'x' || c == 'n'
  }

  function FamilyStyle(c: char): Style
    requires IsFamily(c)
  {
    if c == 'd' then DecimalStyle else if c == 'x' then HexStyle else HybridStyle
  }

  /**
    The arm of family `c` for k letters: it decodes k bytes in the
    family's style and reads its index right after the name.  Two arms
    behave as written: %xxxxx reads its index from offset 4, where an 'x'
    stands, so it never parses; and %nnnnnn accepts the bare name.
  */
  function LetterArm(c: char, k: nat): (f: Form)
    requires IsFamily(c) && 1 <= k <= 6
    ensures Sound(f)
  {
    var name := Letters(c, k);
    Form(if c == 'n' && k == 6 then AtLeast(name) else Longer(name),
         NumericAction(FamilyStyle(c), k, if c == 'x' && k == 5 then 4 else k))
  }

  /**
    The arms of the dispatch chain in the source's order: the keywords,
    the d family from six letters down to one, %-, the x family, the
    five-byte slice fault of the %nnnnnn test, the n family, and the
    bare index.
  */
  function Arm(j: nat): (f: Form)
    requires j < ArmCount
    ensures Sound(f)
  {
    if j < 5 then KeywordArm(j)
    else if j == 11 then Form(Longer("-"), FromEndAction)
    else if j == 18 then Form(FiveLong, SliceFault)
    else if j == 25 then Form(DigitFirst, PlainAction)
    else LetterArm(FamilyAt(j), WidthAt(j))
  }

  /** The family of the letter arm at position `j` of the chain. */
  function FamilyAt(j: nat): (c: char)
    ensures IsFamily(c)
  {
    if j < 11 then 'd' else if j < 18 then 'x' else 'n'
  }

  /** The number of letters of the letter arm at position `j`: each family runs from six letters down to one. */
  function WidthAt(j: nat): (k: nat)
    requires 5 <= j < 25 && j != 11 && j != 18
    ensures 1 <= k <= 6
  {
    if j < 11 then 11 - j else if j < 18 then 18 - j else 25 - j
  }

  /** The command an arm makes of a line its test accepts. */
  function Act(f: Form, line: string): (r: Result<Command>)
    requires Sound(f) && Applies(f.test, line)
    ensures r.Ok? && (r.value.Number? || r.value.FromEnd? || r.value.Plain?) ==>
              1 <= r.value.consumed <= |line|
    ensures r.Ok? && r.value.Number? ==> 1 <= r.value.width <= 6
  {
    match f.action
    case LoadAction => Ok(File(line[5..]))
    case NextAction =>
      var fields := Fields(line);
      if |fields| < 2 then Err(MissingCount(line))
      else
        var n :- Atoi(fields[1]);
        Ok(Next(n))
    case EmptyAction => Ok(Empty)
    case BytesAction => Ok(Bytes)
    case StopAction => Ok(Stop)
    case NumericAction(style, width, from) => NumericArgument(line, style, width, from)
    case FromEndAction =>
      var p :- ParseNumber(line[1..]);
      Ok(FromEnd(p.0, 1 + p.1))
    case SliceFault => Err(SliceOutOfRange(line))
    case PlainAction =>
      var p :- ParseNumber(line);
      Ok(Plain(p.0, p.1))
  }

  /**
    The first arm from the j-th on whose test accepts `line` decides its
    command.  The decreases clause names `line` as well, so that the
    verifier unrolls the chain one arm at a time even for a literal `j`.
  */
  function DispatchFrom(line: string, j: nat): (r: Result<Command>)
    requires j <= ArmCount
    ensures r.Ok? && (r.value.Number? || r.value.FromEnd? || r.value.Plain?) ==>
              1 <= r.value.consumed <= |line|
    ensures r.Ok? && r.value.Number? ==> 1 <= r.value.width <= 6
    decreases ArmCount - j, |line|
  {
    if j == ArmCount then Err(Unhandled(line))
    else if Applies(Arm(j).test, line) then Act(Arm(j), line)
    else DispatchFrom(line, j + 1)
  }

  /**
    The dispatch chain of main's loop: the command of a directive line, or
    the failure it meets.  A numeric command never consumes more than its
    line.
  */
  function Classify(line: string): (r: Result<Command>)
    ensures r.Ok? && (r.value.Number? || r.value.FromEnd? || r.value.Plain?) ==>
              1 <= r.value.consumed <= |line|
    ensures r.Ok? && r.value.Number? ==> 1 <= r.value.width <= 6
  {
    DispatchFrom(line, 0)
  }

  /** The text a numeric directive writes for a decoded value. */
  function Render(style: Style, v: nat): string {
    match style
    case DecimalStyle => Decimal(v)
    case HexStyle => "0x" + UpperHex(v)
    case HybridStyle => Hybrid(v)
  }

  /**
    Each style's text reads back as the value: a decimal numeral, "0x"
    and a canonical hex numeral, or the hybrid form, which is the plain
    decimal numeral exactly for the values below 10 and the hex and decimal
    numerals in the "0x.. (..)" frame from 10 on.
  */
  lemma RenderReadsBack(style: Style, v: nat)
    ensures style == DecimalStyle ==> AllDigits(Render(style, v)) && DecimalValue(Render(style, v)) == v
    ensures style == HexStyle ==>
              var r := Render(style, v);
              |r| > 2 && r[..2] == "0x" && Canonical(r[2..], 16) && ValueIn(r[2..], 16) == v
    ensures style == HybridStyle ==>
              && (Render(style, v) == Decimal(v) <==> v < 10)
              && (v < 10 ==> Canonical(Render(style, v), 10) && ValueIn(Render(style, v), 10) == v)
              && (v >= 10 ==> HexThenDecimal(Render(style, v), v))
  {
    match style
    case DecimalStyle =>
      DecimalReadsBack(v);
    case HexStyle =>
      NumeralRoundTrip(v, 16);
      assert ("0x" + UpperHex(v))[2..] == UpperHex(v);
    case HybridStyle =>
      HybridReadsBack(v);
  }

  /** The value a numeric directive decodes: a width-1 form indexes the context directly. */
  function Decode(ctx: seq<byte>, index: nat, width: nat): (r: Result<nat>)
    requires width >= 1
    ensures r.Ok? <==> index + width <= |ctx|
    ensures r.Ok? ==> r.value == LittleEndian(ctx[index..index + width])
  {
    if width == 1 then
      match ByteAt(ctx, index)
      case Ok(b) =>
        assert ctx[index..index + 1] == [b];
        Ok(b)
      case Err(e) => Err(e)
    else NumFromContext(ctx, index, width)
  }

  /** %file: the named file replaces the data; a missing file fails the run. */
  function LoadFile(files: map<string, seq<byte>>, c: Config, path: string, eol: nat): (r: Result<Config>)
    ensures r.Ok? <==> path in files
    ensures r.Err? ==> r.failure == LoadFailed(path)
    ensures r.Ok? ==> r.value == c.(cursor := eol + 1, data := files[path])
  {
    if path in files then Ok(c.(cursor := eol + 1, data := files[path]))
    else Err(LoadFailed(path))
  }

  /**
    %next: the first `n` bytes of the data become the context and leave
    the data.  A negative count or one beyond the data fails the run.
  */
  function TakeNext(c: Config, n: int, eol: nat): (r: Result<Config>)
    ensures r.Ok? <==> 0 <= n <= |c.data|
    ensures r.Ok? ==>
              && |r.value.context| == n
              && r.value.context + r.value.data == c.data
              && r.value == c.(cursor := eol + 1, context := r.value.context, data := r.value.data)
  {
    if 0 <= n <= |c.data| then
      assert c.data[..n] + c.data[n..] == c.data;
      Ok(c.(cursor := eol + 1, context := c.data[..n], data := c.data[n..]))
    else Err(CountOutOfRange(n, |c.data|))
  }

  /** %empty: succeeds, writing nothing, exactly when all data has been taken. */
  function CheckEmpty(c: Config, eol: nat): (r: Result<Config>)
    ensures r.Ok? <==> c.data == []
    ensures r.Err? ==> r.failure == LeftoverBytes(c.data)
    ensures r.Ok? ==> r.value == c.(cursor := eol + 1)
  {
    if |c.data| > 0 then Err(LeftoverBytes(c.data))
    else Ok(c.(cursor := eol + 1))
  }

  /**
    %stop: the template after the command's newline is written verbatim and
    the scan ends.  On the last line there is no newline, and the source's
    slice starts one past the end.
  */
  function StopAt(t: string, c: Config, eol: nat): (r: Result<Config>)
    requires eol <= |t|
    ensures r.Ok? <==> eol < |t|
    ensures r.Ok? ==> r.value == c.(cursor := |t|, out := c.out + t[eol + 1..])
  {
    if eol + 1 > |t| then Err(StopWithoutNewline)
    else Ok(c.(cursor := |t|, out := c.out + t[eol + 1..]))
  }

  /** A numeric directive: decode `width` context bytes from `index` and write them in `style`. */
  function WriteNumber(c: Config, style: Style, width: nat, index: nat, consumed: nat): (r: Result<Config>)
    requires width >= 1
    ensures r.Ok? <==> index + width <= |c.context|
    ensures r.Ok? ==>
              r.value == c.(cursor := c.cursor + 1 + consumed,
                            out := c.out + Render(style, LittleEndian(c.context[index..index + width])))
  {
    var v :- Decode(c.context, index, width);
    Ok(c.(cursor := c.cursor + 1 + consumed, out := c.out + Render(style, v)))
  }

  /** %{n} and %-{n}: the context byte at `index` as two lower-case hex digits. */
  function WriteByte(c: Config, index: int, consumed: nat): (r: Result<Config>)
    ensures r.Ok? <==> 0 <= index < |c.context|
    ensures r.Ok? ==> r.value == c.(cursor := c.cursor + 1 + consumed, out := c.out + Hex2(c.context[index]))
  {
    var b :- ByteAt(c.context, index);
    Ok(c.(cursor := c.cursor + 1 + consumed, out := c.out + Hex2(b)))
  }

  /**
    Apply a recognised command whose marker is at `c.cursor` and whose line
    ends at `eol`.  Keyword commands continue after the newline; numeric
    commands continue right after their own text, leaving the rest of the
    line to be copied.
  */
  function Execute(t: string, files: map<string, seq<byte>>, c: Config, cmd: Command, eol: nat): (r: Result<Config>)
    requires c.cursor < eol <= |t|
    requires cmd.Number? ==> cmd.width >= 1
    requires (cmd.Number? || cmd.FromEnd? || cmd.Plain?) ==> 1 <= cmd.consumed && c.cursor + 1 + cmd.consumed <= eol
    ensures r.Ok? ==> c.cursor < r.value.cursor <= |t| + 1
    ensures r.Ok? ==> c.out <= r.value.out && r.value.log == c.log
  {
    match cmd
    case File(path) => LoadFile(files, c, path, eol)
    case Next(n) => TakeNext(c, n, eol)
    case Empty => CheckEmpty(c, eol)
    case Bytes => Ok(c.(cursor := eol + 1, out := c.out + BytesDump(c.context)))
    case Stop => StopAt(t, c, eol)
    case Number(style, width, index, consumed) => WriteNumber(c, style, width, index, consumed)
    case FromEnd(index, consumed) => WriteByte(c, |c.context| - index, consumed)
    case Plain(index, consumed) => WriteByte(c, index, consumed)
  }

  /**
    The command line of the directive whose marker is at `i`: the text
    after the marker, up to the first newline or the end of the template.
  */
  function CommandLine(t: string, i: nat): (line: string)
    requires i < |t| && t[i] != '\n'
    ensures i + 1 + |line| <= |t| && t[i + 1..i + 1 + |line|] == line
    ensures '\n' !in line
    ensures i + 1 + |line| < |t| ==> t[i + 1 + |line|] == '\n'
  {
    var line := t[i + 1..LineEnd(t, i)];
    assert forall k :: 0 <= k < |line| ==> line[k] == t[i + 1 + k];
    line
  }

  /**
    One pass of main's loop at `c.cursor`: a literal character, the "%%"
    escape, or a directive.  Every pass moves the cursor forward and only
    appends to the output and the log.
  */
  function Step(t: string, files: map<string, seq<byte>>, c: Config): (r: Result<Config>)
    requires c.cursor < |t|
    ensures r.Ok? ==> c.cursor < r.value.cursor <= |t| + 1
    ensures r.Ok? ==> c.out <= r.value.out && c.log <= r.value.log
  {
    var i := c.cursor;
    if t[i] != '%' then Ok(c.(cursor := i + 1, out := c.out + [t[i]]))
    else if i + 1 == |t| then Err(EscapeAtEnd)
    else if t[i + 1] == '%' then Ok(c.(cursor := i + 2, out := c.out + "%"))
    else Directive(t, files, c, CommandLine(t, i), LineEnd(t, i))
  }

  /**
    A directive whose marker is at `c.cursor` and whose command line `line`
    ends at `eol`: the line is logged, then classified and applied.
  */
  function Directive(t: string, files: map<string, seq<byte>>, c: Config, line: string, eol: nat): (r: Result<Config>)
    requires c.cursor < eol <= |t| && eol == c.cursor + 1 + |line|
    ensures r.Ok? ==> c.cursor < r.value.cursor <= |t| + 1
    ensures r.Ok? ==> c.out <= r.value.out && r.value.log == c.log + ["command %" + line]
  {
    var logged := c.(log := c.log + ["command %" + line]);
    var cmd :- Classify(line);
    Execute(t, files, logged, cmd, eol)
  }

  /** main's loop from configuration `c` until the cursor leaves the template. */
  function RunFrom(t: string, files: map<string, seq<byte>>, c: Config): (r: Result<Config>)
    requires c.cursor <= |t| + 1
    ensures r.Ok? ==> r.value.cursor >= |t| && c.out <= r.value.out && c.log <= r.value.log
    decreases |t| + 1 - c.cursor
  {
    if c.cursor >= |t| then Ok(c)
    else
      var next :- Step(t, files, c);
      RunFrom(t, files, next)
  }

  /**
    Interpret a whole template against the files that %file may load.
    Everything the program writes to standard error is a "command %" line.
  */
  function Run(t: string, files: map<string, seq<byte>>): (r: Result<Transcript>)
    ensures r.Ok? ==> CommandsLogged(r.value.log)
  {
    RunFromLogsCommands(t, files, Initial());
    var final :- RunFrom(t, files, Initial());
    Ok(Transcript(final.out, final.log))
  }

  /** Every entry of the log is the diagnostic line of a directive. */
  predicate CommandsLogged(log: seq<string>) {
    forall k :: 0 <= k < |log| ==> |log[k]| >= 9 && log[k][..9] == "command %"
  }

  /** A pass adds to the log only the diagnostic line of the directive it meets. */
  lemma StepLogsCommands(t: string, files: map<string, seq<byte>>, c: Config)
    requires c.cursor < |t| && CommandsLogged(c.log)
    ensures Step(t, files, c).Ok? ==> CommandsLogged(Step(t, files, c).value.log)
  {
    var i := c.cursor;
    if t[i] == '%' && i + 1 < |t| && t[i + 1] != '%' {
      var line := CommandLine(t, i);
      assert ("command %" + line)[..9] == "command %";
    }
  }

  /** From a log of diagnostic lines, a run that succeeds ends with one. */
  lemma {:induction false} RunFromLogsCommands(t: string, files: map<string, seq<byte>>, c: Config)
    requires c.cursor <= |t| + 1 && CommandsLogged(c.log)
    ensures RunFrom(t, files, c).Ok? ==> CommandsLogged(RunFrom(t, files, c).value.log)
    decreases |t| + 1 - c.cursor
  {
    if c.cursor < |t| {
      StepLogsCommands(t, files, c);
      var s := Step(t, files, c);
      if s.Ok? {
        RunFromLogsCommands(t, files, s.value);
      }
    }
  }
}
