/**
  Whole runs of main's loop: text outside directives, and the "%%"
  escape, reach the output unchanged; a directive's pass decides how the
  run goes on; %stop ends the scan with the rest of the template.
*/
module Scan {
  import opened Base
  import opened Results
  import opened Interpreter
  import opened Directives

  /** How one character of text is written in a template. */
  function EscapeChar(ch: char): (e: string)
    ensures 1 <= |e| <= 2 && e[0] == ch
    ensures |e| == 2 <==> ch == '%'
  {
    if ch == '%' then "%%" else [ch]
  }

  /** The template text that writes `s` as it stands: every '%' doubled. */
  function Escape(s: string): (e: string)
    ensures |e| >= |s|
  {
    if |s| == 0 then ""
    else EscapeChar(s[0]) + Escape(s[1..])
  }

  /** Text without a '%' is its own escaped form. */
  lemma {:induction false} EscapeWithoutMarker(s: string)
    requires '%' !in s
    ensures Escape(s) == s
    decreases |s|
  {
    if |s| > 0 {
      assert s[0] in s;
      assert '%' !in s[1..] by {
        forall j | 0 <= j < |s| - 1 ensures s[1..][j] != '%' {
          assert s[1..][j] == s[j + 1];
        }
      }
      EscapeWithoutMarker(s[1..]);
      assert s == [s[0]] + s[1..];
    }
  }

  /**
    From position i on, template t holds the escaped form of s, character
    by character.
  */
  predicate EscapedAt(t: string, i: nat, s: string)
    decreases |s|
  {
    |s| == 0 ||
    (&& i < |t| && t[i] == s[0]
     && (s[0] == '%' ==> i + 1 < |t| && t[i + 1] == '%')
     && EscapedAt(t, i + |EscapeChar(s[0])|, s[1..]))
  }

  /** A template whose text from i starts with the escaped form of s holds it there. */
  lemma {:induction false} EscapedPrefix(t: string, i: nat, s: string, u: string)
    requires i <= |t| && t[i..] == Escape(s) + u
    ensures EscapedAt(t, i, s)
    decreases |s|
  {
    if |s| > 0 {
      var h := EscapeChar(s[0]);
      assert t[i..] == h + (Escape(s[1..]) + u);
      assert t[i] == t[i..][0] == h[0];
      if s[0] == '%' {
        assert t[i + 1] == t[i..][1] == h[1];
      }
      assert t[i + |h|..] == t[i..][|h|..];
      EscapedPrefix(t, i + |h|, s[1..], u);
    }
  }

  /** A pass of the loop at an escaped character writes the character and moves past its escape. */
  lemma EscapedStep(t: string, files: map<string, seq<byte>>, c: Config, ch: char)
    requires c.cursor < |t| && t[c.cursor] == ch
    requires ch == '%' ==> c.cursor + 1 < |t| && t[c.cursor + 1] == '%'
    ensures Step(t, files, c) == Ok(c.(cursor := c.cursor + |EscapeChar(ch)|, out := c.out + [ch]))
  {
  }

  /** A pass that succeeds hands the rest of the run to the configuration it produced. */
  lemma RunAfterStep(t: string, files: map<string, seq<byte>>, c: Config, next: Config)
    requires c.cursor < |t| && Step(t, files, c) == Ok(next)
    ensures RunFrom(t, files, c) == RunFrom(t, files, next)
  {
  }

  /** A loop whose cursor has left the template is done. */
  lemma RunAtEnd(t: string, files: map<string, seq<byte>>, c: Config)
    requires |t| <= c.cursor <= |t| + 1
    ensures RunFrom(t, files, c) == Ok(c)
  {
  }

  /** The loop passes over one escaped character by writing it. */
  lemma EscapedPass(t: string, files: map<string, seq<byte>>, c: Config, ch: char)
    requires c.cursor < |t| && t[c.cursor] == ch
    requires ch == '%' ==> c.cursor + 1 < |t| && t[c.cursor + 1] == '%'
    ensures RunFrom(t, files, c) == RunFrom(t, files, c.(cursor := c.cursor + |EscapeChar(ch)|, out := c.out + [ch]))
  {
    EscapedStep(t, files, c, ch);
    RunAfterStep(t, files, c, c.(cursor := c.cursor + |EscapeChar(ch)|, out := c.out + [ch]));
  }

  /** Passing the first escaped character and then the rest passes the whole text. */
  lemma EscapedConfigs(c: Config, s: string)
    requires |s| > 0
    ensures var next := c.(cursor := c.cursor + |EscapeChar(s[0])|, out := c.out + [s[0]]);
            next.(cursor := next.cursor + |Escape(s[1..])|, out := next.out + s[1..]) ==
            c.(cursor := c.cursor + |Escape(s)|, out := c.out + s)
  {
    assert s == [s[0]] + s[1..];
    assert c.out + [s[0]] + s[1..] == c.out + s;
  }

  /**
    From a cursor at escaped text, the loop copies the text to the output
    and goes on from the end of its escaped form, configuration `d`.
  */
  lemma {:induction false} RunThroughEscaped(t: string, files: map<string, seq<byte>>, c: Config, s: string, d: Config)
    requires c.cursor <= |t| && EscapedAt(t, c.cursor, s)
    requires d == c.(cursor := c.cursor + |Escape(s)|, out := c.out + s)
    ensures d.cursor <= |t|
    ensures RunFrom(t, files, c) == RunFrom(t, files, d)
    decreases |s|
  {
    if |s| == 0 {
      assert c.out + s == c.out;
    } else {
      var next := c.(cursor := c.cursor + |EscapeChar(s[0])|, out := c.out + [s[0]]);
      EscapedConfigs(c, s);
      EscapedRest(t, c.cursor, s);
      EscapedPass(t, files, c, s[0]);
      RunThroughEscaped(t, files, next, s[1..], d);
    }
  }

  /** Escaped text at i starts with its first character's escape, and the rest of the text follows. */
  lemma EscapedRest(t: string, i: nat, s: string)
    requires EscapedAt(t, i, s) && |s| > 0
    ensures i < |t| && t[i] == s[0] && (s[0] == '%' ==> i + 1 < |t| && t[i + 1] == '%')
    ensures i + |EscapeChar(s[0])| <= |t| && EscapedAt(t, i + |EscapeChar(s[0])|, s[1..])
  {
  }

  /** A template with every '%' doubled writes its text once, undoubled, and logs nothing. */
  lemma EscapedTemplateWritesText(s: string, files: map<string, seq<byte>>)
    ensures Run(Escape(s), files) == Ok(Transcript(s, []))
  {
    var t := Escape(s);
    EscapedPrefix(t, 0, s, "");
    RunThroughEscaped(t, files, Initial(), s, Initial().(cursor := |t|, out := Initial().out + s));
    assert "" + s == s;
  }

  /** A template without a '%' is copied to the output unchanged. */
  lemma LiteralTemplate(t: string, files: map<string, seq<byte>>)
    requires '%' !in t
    ensures Run(t, files) == Ok(Transcript(t, []))
  {
    EscapeWithoutMarker(t);
    EscapedTemplateWritesText(t, files);
  }

  /**
    Whatever came before, a loop that reaches a '%' as the template's last
    character fails: the escape check reads the character after it.
  */
  lemma FinalMarkerFails(t: string, files: map<string, seq<byte>>, c: Config)
    requires |t| > 0 && c.cursor == |t| - 1 && t[c.cursor] == '%'
    ensures RunFrom(t, files, c) == Err(EscapeAtEnd)
  {
  }

  /** After escaped text, a final '%' is reached, so the run fails. */
  lemma MarkerAtEndFails(s: string, files: map<string, seq<byte>>)
    ensures Run(Escape(s) + "%", files) == Err(EscapeAtEnd)
  {
    var t := Escape(s) + "%";
    EscapedPrefix(t, 0, s, "%");
    var c := Initial().(cursor := |Escape(s)|, out := Initial().out + s);
    RunThroughEscaped(t, files, Initial(), s, c);
    assert t[c.cursor] == '%';
    FinalMarkerFails(t, files, c);
  }

  /**
    The pass at a directive decides the run: a failing directive fails it,
    and otherwise the loop goes on from the directive's result.
  */
  lemma RunThroughDirective(t: string, files: map<string, seq<byte>>, c: Config, line: string, rest: string)
    requires DirectiveAt(t, c.cursor, line, rest)
    ensures var d := Directive(t, files, c, line, c.cursor + 1 + |line|);
            && (d.Err? ==> RunFrom(t, files, c) == Err(d.failure))
            && (d.Ok? ==> RunFrom(t, files, c) == RunFrom(t, files, d.value))
  {
    assert |t| == c.cursor + 1 + |line| + |rest|;
    StepAtDirective(t, files, c, line, rest);
  }

  /** The template after a directive line that ends in a newline. */
  lemma AfterLine(t: string, i: nat, line: string, rest: string)
    requires i <= |t| && t[i..] == "%" + line + ("\n" + rest)
    ensures i + 1 + |line| < |t| && t[i + 2 + |line|..] == rest
  {
    assert t[i + 2 + |line|..] == t[i..][2 + |line|..];
  }

  /** A %stop line with a newline after it yields the configuration that ends the scan. */
  lemma StopResult(t: string, files: map<string, seq<byte>>, c: Config, note: string, eol: nat, rest: string)
    requires eol == c.cursor + 1 + |"stop" + note| && eol < |t| && t[eol + 1..] == rest
    ensures Directive(t, files, c, "stop" + note, eol) ==
              Ok(c.(cursor := |t|, out := c.out + rest, log := c.log + ["command %" + ("stop" + note)]))
  {
    StopDirective(t, files, c, note, eol);
  }

  /** The pass at a directive that succeeds produces the directive's configuration. */
  lemma StepOk(t: string, files: map<string, seq<byte>>, c: Config, line: string, rest: string, d: Config)
    requires DirectiveAt(t, c.cursor, line, rest)
    requires |t| == c.cursor + 1 + |line| + |rest|
    requires Directive(t, files, c, line, c.cursor + 1 + |line|) == Ok(d)
    ensures c.cursor < |t| && Step(t, files, c) == Ok(d)
  {
    StepAtDirective(t, files, c, line, rest);
  }

  /** A pass that leaves the template ends the run with the configuration it produced. */
  lemma LastStep(t: string, files: map<string, seq<byte>>, c: Config, d: Config)
    requires c.cursor < |t| && Step(t, files, c) == Ok(d) && d.cursor == |t|
    ensures RunFrom(t, files, c) == Ok(d)
  {
    RunAfterStep(t, files, c, d);
    RunAtEnd(t, files, d);
  }

  /** The pass at a %stop line followed by its newline leaves the template. */
  lemma StopStep(t: string, files: map<string, seq<byte>>, c: Config, note: string, rest: string)
    requires DirectiveAt(t, c.cursor, "stop" + note, "\n" + rest)
    ensures c.cursor < |t|
    ensures Step(t, files, c) ==
              Ok(c.(cursor := |t|, out := c.out + rest, log := c.log + ["command %" + ("stop" + note)]))
  {
    AfterLine(t, c.cursor, "stop" + note, rest);
    StopResult(t, files, c, note, c.cursor + 1 + |"stop" + note|, rest);
    StepOk(t, files, c, "stop" + note, "\n" + rest,
           c.(cursor := |t|, out := c.out + rest, log := c.log + ["command %" + ("stop" + note)]));
  }

  /**
    At a %stop line followed by its newline the run ends: the template
    after the newline is written verbatim and nothing in it is interpreted.
  */
  lemma StopEndsRun(t: string, files: map<string, seq<byte>>, c: Config, note: string, rest: string)
    requires DirectiveAt(t, c.cursor, "stop" + note, "\n" + rest)
    ensures RunFrom(t, files, c) ==
              Ok(c.(cursor := |t|, out := c.out + rest, log := c.log + ["command %" + ("stop" + note)]))
  {
    StopStep(t, files, c, note, rest);
    LastStep(t, files, c, c.(cursor := |t|, out := c.out + rest, log := c.log + ["command %" + ("stop" + note)]));
  }

  /** The text of a %stop line, regrouped as the marker, the command line and what follows it. */
  lemma StopLine(note: string, rest: string)
    requires '\n' !in note
    ensures '\n' !in "stop" + note
    ensures "%stop" + note + "\n" + rest == "%" + ("stop" + note) + ("\n" + rest)
  {
    assert forall j :: 4 <= j < |"stop" + note| ==> ("stop" + note)[j] == note[j - 4];
  }

  /** The layout of a template made of escaped text, a %stop line and more text. */
  lemma StopTemplate(s: string, note: string, rest: string)
    requires '\n' !in note
    ensures var t := Escape(s) + "%stop" + note + "\n" + rest;
            EscapedAt(t, 0, s) && DirectiveAt(t, |Escape(s)|, "stop" + note, "\n" + rest)
  {
    var e := Escape(s);
    var u := "%stop" + note + "\n" + rest;
    assert e + "%stop" + note + "\n" + rest == e + u;
    EscapedPrefix(e + u, 0, s, u);
    assert (e + u)[|e|..] == u;
    StopLine(note, rest);
  }

  /**
    A run over a template that holds escaped text and then a %stop line
    writes the text and everything after the %stop line, and logs only
    the %stop line.
  */
  lemma StopRun(t: string, files: map<string, seq<byte>>, s: string, note: string, rest: string)
    requires EscapedAt(t, 0, s) && DirectiveAt(t, |Escape(s)|, "stop" + note, "\n" + rest)
    ensures Run(t, files) == Ok(Transcript(s + rest, ["command %" + ("stop" + note)]))
  {
    var c := Initial().(cursor := |Escape(s)|, out := Initial().out + s);
    RunThroughEscaped(t, files, Initial(), s, c);
    StopEndsRun(t, files, c, note, rest);
    EmptyStart(s, rest, "command %" + ("stop" + note));
  }

  /** The initial output and log are empty; kept apart from StopRun, where the run terms make it costly. */
  lemma EmptyStart(s: string, rest: string, entry: string)
    ensures "" + s + rest == s + rest && [] + [entry] == [entry]
  {
  }

  /**
    A %stop line after escaped text ends the run: the text and then the
    template after the %stop line are written verbatim, whatever follows,
    and only the %stop line is logged.
  */
  lemma StopCopiesRest(s: string, note: string, rest: string, files: map<string, seq<byte>>)
    requires '\n' !in note
    ensures Run(Escape(s) + "%stop" + note + "\n" + rest, files) ==
              Ok(Transcript(s + rest, ["command %" + ("stop" + note)]))
  {
    StopTemplate(s, note, rest);
    StopRun(Escape(s) + "%stop" + note + "\n" + rest, files, s, note, rest);
  }

  /** A final '%' after a %stop line is copied, not reached: the run succeeds. */
  lemma StopShieldsFinalMarker(files: map<string, seq<byte>>)
    ensures Run("%stop\n%", files) == Ok(Transcript("%", ["command %stop"]))
  {
    StopMarkerTemplate();
    StopCopiesRest("", "", "%", files);
  }

  /** The template and the transcript of StopShieldsFinalMarker in StopCopiesRest's terms. */
  lemma StopMarkerTemplate()
    ensures Escape("") + "%stop" + "" + "\n" + "%" == "%stop\n%"
    ensures Transcript("" + "%", ["command %" + ("stop" + "")]) == Transcript("%", ["command %stop"])
  {
    assert Escape("") == "";
    assert "" + "%" == "%";
    assert "stop" + "" == "stop";
    assert "command %" + ("stop" + "") == "command %stop";
  }
}
