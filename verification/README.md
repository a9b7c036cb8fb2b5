# ill-generator template interpreter, in Dafny

This project models the template interpreter of `main.go`. It reads a text
template and copies every ordinary character to the output. At each `%`
it reads the rest of the line as a directive. A directive loads a file
(`%file`), cuts the next bytes of the loaded data into the current
context (`%next`), checks that no data is left (`%empty`), dumps the
context in hex (`%bytes`), stops interpreting (`%stop`), or renders bytes
of the context as a number. The numeric forms are:

- `%d..%dddddd`: decimal;
- `%x..%xxxxxx`: `0x` and upper-case hex;
- `%n..%nnnnnn`: the hybrid form;
- `%{n}` and `%-{n}`: two lower-case hex digits.

Every panic of the program is a `Failure` value that ends the run
(`Results.Result`).

The model is functional:

- `Interpreter.RunFrom` is main's loop over an immutable configuration
  (cursor, data, context, output, diagnostic log).
- `Interpreter.Step` is one pass of the loop.
- `Interpreter.Classify` is the ordered dispatch chain, written as a table
  of 26 arms (`Interpreter.Arm`) tried in the program's order.
- `Interpreter.Execute` applies the recognised command.
- `Base` holds `isNum`, decimal values and UTF-8 byte lengths.
- `Numbers` holds `parseNumber`, `numFromContext`, `strconv.Atoi` and
  `strings.Fields`.
- `Format` holds fmt's `%d`, `%X` and `%02x`, the hybrid form and the
  `%bytes` dump. Each rendering comes with the reading that undoes it.
- `Classification` proves which command each directive form becomes.
- `Directives` proves what one pass does at each directive.
- `Scan` proves whole-run properties: literal copying, `%%`, `%stop`.
- `Examples` works through concrete templates and data.

The quirks of the code are modelled as written, and lemmas exhibit them:

- A `%` that the scan reaches as the template's last character fails the
  run, because the escape check reads past the end
  (`Scan.FinalMarkerFails`). A final `%` after a `%stop` line is copied
  instead (`Scan.StopShieldsFinalMarker`).
- `%xxxxx` reads its index from offset 4, which holds an `x`, so it always
  fails as a bad number (`Classification.WidthFiveHexFails`).
- The `%nnnnnn` test slices six bytes under a `len(line) > 4` guard.
  So any command line of exactly five UTF-8 bytes that gets that far
  fails (`Classification.FiveByteLineFails`), even one of four
  characters (`Examples.FiveByteLine`).
- `%stop` on the last line, with no newline after it, fails
  (`Interpreter.StopAt`).
- A numeric directive moves the cursor only past its letters and digits,
  so the rest of its line, newline included, is copied as text.

fmt's `0x%X` does not pad with zeros, so the byte 10 in the n family
renders as `0xA (10)`. Four bytes `0A 0B 0C 0D` under `%xxxx0` render as
`0xD0C0B0A`. A zero-padded rendering would give `0x0A (10)` and
`0x0D0C0B0A`. The model follows the code (`Examples.HybridForms`,
`Examples.FourBytesInHex`).

## Model

| member | source | states |
|---|---|---|
| Numbers.DigitRun | main.go:299-302 | the leading digit run: every character before it is a digit, and the character after it (if any) is not |
| Base.IsNumDigits | main.go:286-288 | isNum accepts exactly the ten characters '0' to '9' |
| Base.Utf8Length | main.go:211 | Go's len of a string: its UTF-8 byte count, between the character count and four times it, and equal to the character count exactly for ASCII text |
| Base.Utf8LengthAppend | main.go:211 | the byte count of a concatenation is the sum of the byte counts |
| Numbers.ParseNumber | main.go:298-311 | succeeds exactly when the text starts with a digit, else fails with "bad number"; the span is the maximal leading digit run (at least 1) and the number is that run's decimal value |
| Numbers.Atoi | main.go:106-110 | accepts exactly an optional sign followed by one or more decimal digits, otherwise fails with a bad count; the value is the digits' decimal value, negated after '-' |
| Numbers.Fields | main.go:106 | every field is a non-empty run of non-space characters, and the fields concatenated are exactly the non-space characters of the line |
| Numbers.FieldsSkipSpaces | main.go:106 | leading white space never starts a field |
| Numbers.FieldsOfWordThenSpace | main.go:106 | a word followed by white space is the first field, and the rest is split on its own |
| Numbers.FieldsOfWord | main.go:106 | a lone word is the single field |
| Numbers.ByteAt | main.go:169 | indexing the context succeeds exactly inside it and yields that byte; outside it fails with the index and the length |
| Numbers.LittleEndianBound | main.go:290-296 | a little-endian number of w bytes is below 256^w, so each byte ORed in by numFromContext lands above the bits already set, and OR equals addition |
| Numbers.LittleEndianAppend | main.go:292-294 | one more loop turn adds the new byte times 256^b |
| Numbers.Accumulate | main.go:291-295 | numFromContext's loop from byte b succeeds exactly when no byte is left to read or all width bytes lie in the context; otherwise it fails at the first index past the context |
| Numbers.AccumulateDecodes | main.go:291-295 | numFromContext's loop yields the little-endian value of the bytes when they all lie in the context, and fails at the first missing byte otherwise |
| Numbers.NumFromContext | main.go:290-296 | within the context the result is the little-endian value of bytes index..index+width-1 and is below 256^width; past the context it fails at the first missing byte |
| Numbers.LittleEndianOfEncoding | main.go:290-296 | reading back the little-endian encoding of any value that fits in w bytes gives the value |
| Numbers.NumFromContextOfEncoding | main.go:290-296 | numFromContext inverts the little-endian encoding of every value below 256^width |
| Format.Numeral | main.go:140 | an unpadded numeral has one digit exactly when the value is below the radix |
| Format.NumeralRoundTrip | main.go:140 | fmt's unpadded %d / %X numeral is canonical (upper-case digits, no leading zero) and reads back as the value |
| Format.NumeralCanonical | main.go:180 | every rendered numeral is canonical |
| Format.NumeralValue | main.go:180 | every rendered numeral reads back as the value it renders |
| Format.NumeralOfValue | main.go:180 | conversely, every canonical numeral is the rendering of its own value |
| Format.DecimalReadsBack | main.go:140 | "%d" writes a non-empty digit string whose decimal value is the number |
| Format.DigitRunOfDigits | main.go:299-302 | after a digit string followed by a non-digit, parseNumber's scan stops exactly at the end of the digits |
| Format.ParseNumberOfDigits | main.go:298-311 | parseNumber reads any non-empty digit string followed by a non-digit, leading zeros included, as its decimal value with span equal to its length |
| Format.AtoiOfUnsigned | main.go:107 | strconv.Atoi reads back any rendered decimal |
| Format.AtoiOfSigned | main.go:107 | a '+' or '-' sign before a digit string gives that string's value with the sign |
| Format.AtoiOfDecimal | main.go:107 | strconv.Atoi reads back a rendered decimal bare, with '+', and with '-' as its negation |
| Format.Hex2 | main.go:174 | "%02x" of a byte is exactly two characters, each a digit or a lower-case a to f |
| Format.Hex2ReadsBack | main.go:174 | the two hex digits of "%02x" read back as the byte |
| Format.Hex2Injective | main.go:274 | two bytes render alike under "%02x" only if they are equal |
| Format.HexEqualsDecimalIff | main.go:218 | the hex and decimal numerals of a value coincide exactly when it is below 10 |
| Format.Hybrid | main.go:265-269 | the n family writes the bare decimal numeral exactly when the value is below 10; HybridReadsBack states the text from 10 on |
| Format.HybridReadsBack | main.go:215-268 | below 10 the n family writes a canonical decimal numeral of the value; from 10 on it writes "0x", a canonical upper-case hex numeral of the value, " (", a canonical decimal numeral of the value and ")" |
| Format.OctetsLength | main.go:121-122 | each byte becomes three characters |
| Format.OctetAt | main.go:121-122 | byte j of the dump line sits at offset 3j, as a space and its two hex digits |
| Format.DumpFrom | main.go:121-129 | the %bytes loop from byte k on; DumpFromLine and DumpFromLines state what it writes |
| Format.DumpFromInside | main.go:123-125 | inside a 32-byte line no newline follows a byte |
| Format.DumpFromLast | main.go:123-129 | the last byte of a line is followed by one newline: after every 32nd byte, and once after a final partial line |
| Format.DumpFromLine | main.go:121-129 | the %bytes loop writes each 32-byte line as its octet groups followed by one newline |
| Format.DumpFromLines | main.go:121-129 | from any line boundary on, the %bytes loop writes the reference layout |
| Format.BytesDump | main.go:119-130 | %bytes writes the context as lines of up to 32 " xx" groups, each ended by exactly one newline: 3·n + ceil(n/32) characters for n bytes |
| Format.DumpLinesLength | main.go:119-130 | the line layout has 3 characters per byte plus one newline per started line of 32 |
| Interpreter.IndexOf | main.go:90-93 | strings.IndexByte: -1 exactly when the character is absent, else the position of its first occurrence |
| Interpreter.LineEnd | main.go:89-93 | the command line ends at the first newline after the marker, or at the end of the template |
| Interpreter.CommandLine | main.go:90-94 | the command line is the text right after the marker; it holds no newline, and a newline follows it unless it ends the template |
| Interpreter.NumericArgument | main.go:138-141 | a numeric form's argument parses exactly when a digit follows the name; then the index and digit span are parseNumber's, the command keeps the form's style and width and stays within the line; otherwise it fails with parseNumber's "bad number" on the text after the name |
| Interpreter.Letters | main.go:136-270 | the k-letter name of a family is k copies of the letter |
| Interpreter.KeywordArm | main.go:97-135 | each keyword arm's test guarantees the slice its action takes |
| Interpreter.LetterArm | main.go:136-270 | each numeric arm is sound: width 1 to 6, and its argument offset lies within the name it tests |
| Interpreter.Arm | main.go:97-277 | every arm of the 26-arm chain is sound in the same sense |
| Interpreter.Act | main.go:97-277 | the command an arm makes consumes at least one and at most all characters of the line, and a numeric command has width 1 to 6 |
| Interpreter.DispatchFrom | main.go:97-277 | the first accepting arm decides; the same bounds on what a command consumes |
| Interpreter.Classify | main.go:97-277 | the dispatch chain's command never consumes more than its line |
| Interpreter.Decode | main.go:139-169 | the decoded value exists exactly when all width bytes lie in the context, and is their little-endian value (width 1 indexes the context directly) |
| Interpreter.Render | main.go:136-270 | the text a numeric command writes in each style; RenderReadsBack states its meaning |
| Interpreter.RenderReadsBack | main.go:136-270 | each style's text reads back as the value: a decimal numeral (%d); "0x" and a canonical upper-case hex numeral (0x%X); or the hybrid form, a decimal numeral below 10 and "0x" hex " (" decimal ")" from 10 on |
| Interpreter.LoadFile | main.go:97-103 | %file succeeds exactly when the file exists, replaces the data with its bytes and moves past the newline; otherwise it fails naming the path |
| Interpreter.TakeNext | main.go:104-113 | %next succeeds exactly when 0 ≤ n ≤ len(data); then the new context has n bytes, context ++ new data is the old data, and nothing else but the cursor changes |
| Interpreter.CheckEmpty | main.go:114-118 | %empty succeeds exactly when the data is empty, writes nothing and moves past the newline; otherwise it fails with the leftover bytes |
| Interpreter.StopAt | main.go:131-135 | %stop succeeds exactly when a newline ends its line; then the rest of the template after it is written and the cursor is at the end |
| Interpreter.WriteNumber | main.go:136-270 | a numeric directive succeeds exactly when its bytes lie in the context; it writes their little-endian value in its style and moves the cursor by 1 + consumed |
| Interpreter.WriteByte | main.go:271-275 | a byte directive succeeds exactly when the index is inside the context; it writes that byte as "%02x" and moves by 1 + consumed |
| Interpreter.Execute | main.go:97-277 | applying a command moves the cursor forward, at most one past the template, only appends to the output and leaves the log alone |
| Interpreter.Step | main.go:80-283 | each pass moves the cursor forward, at most one past the end, and only appends to output and log |
| Interpreter.Directive | main.go:89-278 | a directive logs "command %" and its line exactly once, then only appends to the output and moves forward |
| Interpreter.RunFrom | main.go:79-283 | a finished run has its cursor at or past the end, and extends the output and the log it started with |
| Interpreter.StepLogsCommands | main.go:95 | every log entry a pass adds is "command %" followed by the line |
| Interpreter.RunFromLogsCommands | main.go:95 | a run that starts with a log of command lines finishes with one |
| Interpreter.Run | main.go:79-283 | main's loop from the start of the template with no data: a finished run's diagnostic log consists only of "command %" lines |
| Classification.Skip | main.go:97-277 | arms that reject the line are passed over in order |
| Classification.PastKeywords | main.go:97-135 | a line that fails the five keyword tests, near misses such as "sto" or "foo" included, gets past the five keyword arms |
| Classification.NoKeywordStart | main.go:97-131 | a line whose first character begins no keyword (not f, e, b, s, nor "ne") fails all five keyword tests |
| Classification.PastFromEnd | main.go:171 | an empty line, or one not starting with '-', gets past the %- arm |
| Classification.PastFiveLong | main.go:211 | a line of any byte length but five gets past the sliced %nnnnnn test |
| Classification.FamilyArm | main.go:136-270 | each family's arms stand in order from six letters down to one |
| Classification.PastFamily | main.go:136-270 | an empty line, or one not starting with a family's letter, gets past all six of its arms |
| Classification.WithinFamily | main.go:136-270 | a line of exactly k family letters followed by more text is decided by the k-letter arm, longer names first |
| Classification.ReachesHex | main.go:176 | a line that fails the keyword tests and starts with neither 'd' nor '-' (or is empty) reaches the x family |
| Classification.ReachesHybrid | main.go:211 | such a line, not starting with 'x' and not five bytes long, reaches the n family |
| Classification.NumericLine | main.go:136-270 | a line of k letters, a digit string d and a non-digit tail has exactly k leading letters; parseNumber reads d's value back with span len(d), and the numeric argument after the letters is that number |
| Classification.ClassifyDecimalFamily | main.go:136-170 | %d..%dddddd followed by a digit string d (leading zeros allowed): the width-k decimal command for byte d, consuming the letters and the len(d) digits only |
| Classification.ClassifyHexFamily | main.go:176-210 | %x..%xxxx and %xxxxxx followed by a digit string d: the width-k hex command for byte d |
| Classification.ClassifyHybridFamily | main.go:211-270 | %n..%nnnnnn followed by a digit string d, on a line not five bytes long: the width-k hybrid command |
| Classification.HybridLine | main.go:211-270 | a line of k 'n's and a digit, not five bytes long, is decided by the n family's k-letter arm |
| Classification.ClassifyFromEnd | main.go:171-175 | %- followed by a digit string d: the byte d from the end, consuming '-' and the len(d) digits |
| Classification.ClassifyPlain | main.go:271-275 | a bare digit string d, on a line not five bytes long: byte d as hex, consuming the len(d) digits |
| Classification.WidthFiveHexFails | main.go:182-187 | %xxxxx followed by any text not starting with 'x' fails as a bad number on the text from offset 4 |
| Classification.FiveByteLineFails | main.go:211 | every line of five UTF-8 bytes that reaches the %nnnnnn test fails with an out-of-range slice |
| Classification.UnhandledLine | main.go:276-277 | a line that fails the keyword tests (near misses included), is empty or starts with no family letter, '-' or digit, and is not five bytes long, is an unhandled command |
| Classification.ClassifyFile | main.go:97-99 | "file P" names the file P |
| Classification.ClassifyNext | main.go:104-110 | "next W" is the count strconv.Atoi reads from W, or a bad count |
| Classification.NextWithoutCount | main.go:106-107 | "next" followed only by spaces has no second field and fails |
| Classification.ClassifyEmpty | main.go:114 | any line starting with "empty" is %empty |
| Classification.ClassifyBytes | main.go:119 | any line starting with "bytes" is %bytes |
| Classification.ClassifyStop | main.go:131 | any line starting with "stop" is %stop |
| Directives.LineOf | main.go:89-94 | the command line is the text after the marker up to the newline or the end |
| Directives.DirectiveLine | main.go:81-94 | at a directive the marker is not doubled, and the scan finds exactly its line |
| Directives.StepAtDirective | main.go:81-95 | a pass at a directive is the directive applied to its command line |
| Directives.NumberDirective | main.go:136-165 | a numeric command succeeds exactly when its bytes lie in the context; it writes their rendering, logs the line and moves by 1 + consumed |
| Directives.ByteDirective | main.go:171-175 | %{num} / %-{num} succeed exactly when the addressed byte exists; they write it as "%02x" and log the line |
| Directives.LetterCommand | main.go:136-270 | a family letter k times followed by a digit string d is that family's width-k command for byte d, consuming k + len(d) characters |
| Directives.LetterDirective | main.go:136-270 | a family directive of width k at index d succeeds exactly when d + k ≤ len(context), writes the k bytes' little-endian value in the family's style, and moves the cursor by exactly 1 + k + len(d), leaving the rest of the line |
| Directives.WidthFiveHexDirective | main.go:182-187 | a %xxxxx directive not followed by another 'x' always fails the run as a bad number |
| Directives.FromEndDirective | main.go:171-175 | %-{num} with a digit string d succeeds exactly when 1 ≤ d ≤ len(context), writes the d-th byte from the end, and moves by 2 + len(d) |
| Directives.PlainDirective | main.go:271-275 | %{num} with a digit string d (the line not five bytes long) succeeds exactly when d < len(context), writes byte d in lower-case hex, and moves by 1 + len(d) |
| Directives.FileDirective | main.go:97-103 | %file P succeeds exactly when P exists, loads it as the data and continues after the newline; otherwise it fails naming P |
| Directives.NextDirective | main.go:104-113 | %next d succeeds exactly when d ≤ len(data); the context becomes the first d data bytes, the data the rest, and the run continues after the newline |
| Directives.NegativeCount | main.go:106-107 | "-d" for a digit string d is one field that strconv.Atoi reads as minus d's value |
| Directives.NegativeNextDirective | main.go:104-112 | %next with a negative count fails whatever the data |
| Directives.EmptyDirective | main.go:114-118 | %empty succeeds exactly when no data is left, writes nothing and continues after the newline |
| Directives.BytesDirective | main.go:119-130 | %bytes writes the context in the 32-per-line layout and continues after the newline |
| Directives.StopDirective | main.go:131-135 | %stop succeeds exactly when a newline follows its line; it writes the template after that newline verbatim and ends the scan |
| Scan.EscapeChar | main.go:81-87 | a '%' is written as "%%"; every other character stands for itself |
| Scan.EscapedStep | main.go:81-87 | a pass at an ordinary character, or at "%%", writes one character and moves past it |
| Scan.EscapedPass | main.go:279-282 | the loop passes over one escaped character by writing it |
| Scan.RunAfterStep | main.go:80 | a pass that succeeds hands the rest of the run to its result |
| Scan.RunAtEnd | main.go:80 | a cursor at or past the end finishes the run |
| Scan.RunThroughEscaped | main.go:79-87 | from escaped text the loop writes the text and moves past its escaped form |
| Scan.EscapedTemplateWritesText | main.go:79-87 | a template with every '%' doubled writes its text exactly once, undoubled, and logs nothing |
| Scan.LiteralTemplate | main.go:279-282 | a template without '%' is copied to the output unchanged |
| Scan.FinalMarkerFails | main.go:83 | from any configuration, a '%' that the scan reaches as the template's last character fails the run |
| Scan.MarkerAtEndFails | main.go:83 | escaped text followed by a final '%' fails the run, since the scan reaches that '%' |
| Scan.RunThroughDirective | main.go:89-278 | a failing directive fails the run; otherwise the run goes on from its result |
| Scan.StopResult | main.go:131-135 | a %stop line followed by a newline gives the configuration that ends the scan with the rest written |
| Scan.StepOk | main.go:81-95 | the pass at a directive that succeeds produces the directive's configuration |
| Scan.LastStep | main.go:80 | a pass that reaches the end of the template ends the run with its result |
| Scan.StopStep | main.go:131-135 | the pass at a %stop line followed by a newline reaches the end of the template |
| Scan.StopEndsRun | main.go:131-135 | at a %stop line followed by a newline the run ends with the rest written verbatim, and nothing after it is interpreted |
| Scan.StopRun | main.go:131-135 | a run over escaped text followed by a %stop line writes the text and then the rest, logging only the %stop line |
| Scan.StopCopiesRest | main.go:131-135 | whatever follows a %stop line, directives included, is written verbatim |
| Scan.StopShieldsFinalMarker | main.go:131-135 | "%stop" and a newline before a final '%' make the run succeed, writing "%" and logging only the %stop line |
| Examples.TwoByteValue | main.go:290-296 | the context 01 02 as a 2-byte number is 0x0201 = 513 |
| Examples.HybridForms | main.go:265-269 | the n family writes 5 as "5" and 10 as "0xA (10)" |
| Examples.FiveByteLine | main.go:211 | "n0 é", four characters but five bytes, fails with the slice fault |
| Examples.NearMissesUnhandled | main.go:276-277 | "sto", "foo" and the empty line are unhandled commands |
| Examples.SixByteLine | main.go:211 | "n0abé", five characters but six bytes, passes the slice and is the width-1 hybrid command for byte 0 |
| Examples.LastByteExample | main.go:171-175 | %-1 on the context 11 22 33 writes "33" |
| Examples.ThirtyThreeBytes | main.go:119-130 | 33 bytes dump as a full line of 32 groups and a line with one group, 101 characters |
| Examples.FourBytesInHex | main.go:188-193 | bytes 0A 0B 0C 0D under %xxxx render as "0xD0C0B0A" |
| Examples.FilePass | main.go:97-103 | at %file naming an existing file the run goes on after the line with that file as the data |
| Examples.NextPass | main.go:104-113 | at %next n within the data the run goes on after the line with those n bytes as the context |
| Examples.HexPass | main.go:188-193 | at %xxxx0 over four or more bytes the run goes on right after the digit, having written their hex value |
| Examples.EmptyPass | main.go:114-118 | at %empty with no data left the run goes on after the line |
| Examples.FourByteRunFrom | main.go:79-283 | a %file / %next 4 / %xxxx0 / %empty template over a 4-byte file writes the bytes' hex value and the newline left on the %xxxx0 line, and logs the four lines |
| Examples.FourByteHexRun | main.go:79-283 | the four-byte template round trip succeeds with that output, for any file name and any four bytes |
| Examples.LeftoverDataFails | main.go:114-118 | %empty after %file with unread data fails the run with those bytes |

## Left out

- Reading the template from standard input, the buffered writer and its
  flush (main.go:68-77) are I/O. A run is a function from the template
  text and the files to a transcript.
- `ioutil.ReadFile` is a map from path to bytes. A path outside the map
  is a failed load, whatever the operating system's reason.
- The `command %...` line written to standard error is kept as a log
  sequence in the transcript.
- Go's panic mechanics collapse into one `Failure` value that ends the
  run. The output flushed before the panic by the deferred `Flush` is not
  modelled, so a failed run has no partial output.
- Numbers.Atoi: does not model overflow of Go's 64-bit `int`. Integers
  are unbounded, so a count or index too large for `int` parses here,
  where the program fails. Any such count or index also lies outside the
  data or context, so the run still fails, with a different failure.
- Numbers.NumFromContext: `|=` and `<<` on Go's `int` are written as
  addition and multiplication by 256^b. These agree because the bits
  already set lie below bit 8b (Numbers.LittleEndianBound). Six bytes fit
  in 64 bits, so no overflow arises.
- Which of the two slices fails for a bad %next count is not kept apart.
  A count above len(data) can pass `data[:n]` (main.go:111) when the
  capacity allows, but `data[n:]` (main.go:112) then fails. So every such
  count panics, as in the model, which has one failure for both lines.
- The template is a sequence of Unicode characters, so one that is not
  valid UTF-8 cannot be written. Go's `len(line)` counts bytes; the model
  counts bytes (`Base.Utf8Length`) in the one length test not tied to an
  ASCII prefix, the `len(line) > 4` guard of main.go:211. Every other
  length test sits beside a comparison with an ASCII prefix, where bytes
  and characters agree. UTF-8 continuation bytes are never '%', a newline
  or a digit, so scanning by character finds what Go's scan by byte finds,
  and a non-ASCII character is copied whole, which writes the same text.
- `fmt` itself is not modelled. Only the three verbs the program uses are
  written out (`%d`, `%X`, `%02x`), for non-negative values.
- Interpreter.Run states only that its log holds command lines. Its
  output is stated by the run lemmas in Scan and Examples.
