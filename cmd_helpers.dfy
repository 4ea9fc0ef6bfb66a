/**
 * Command-line helpers of the operator loop (lib/debugr/utils/cmd_helpers.rb):
 * splitting an input line into a command word and its argument, the body of
 * the help text, and the normalisation `read_input` applies to what it reads.
 */
module CmdHelpers {
  import opened Wrappers
  import opened RubyText
  import opened Constants

  /**
   * `parse_command_line`: `line.strip.split(' ', 2)`, returned as the command
   * word and the rest of the line (`None` for Ruby's `nil`).
   */
  function ParseCommandLine(line: string): (r: (Option<string>, Option<string>))
    ensures r.0.None? <==> Strip(line) == []
    ensures r.0.None? ==> r.1.None?
    ensures r.0.Some? ==> r.0.value != [] && NoSpace(r.0.value) && StartsWith(Strip(line), r.0.value)
    ensures r.0.Some? && r.1.None? ==> r.0.value == Strip(line)
  {
    var t := Strip(line);
    StrippedStart(line);
    var parts := SplitWord(t);
    (if |parts| >= 1 then Some(parts[0]) else None, if |parts| == 2 then Some(parts[1]) else None)
  }

  lemma StrippedStart(line: string)
    ensures SkipSpaces(Strip(line)) == Strip(line)
  {
  }

  /**
   * When there is an argument, the stripped line is the command word, a
   * non-empty run of whitespace and the argument, which neither starts nor
   * ends with whitespace.
   */
  lemma ParseArgument(line: string)
    requires ParseCommandLine(line).1.Some?
    ensures var t, cmd, arg := Strip(line), ParseCommandLine(line).0.value, ParseCommandLine(line).1.value;
      && arg != [] && !IsSpace(arg[0]) && !IsStripChar(arg[|arg| - 1])
      && |cmd| < |t| - |arg| && StartsWith(t, cmd) && EndsWith(t, arg)
      && forall i :: |cmd| <= i < |t| - |arg| ==> IsSpace(t[i])
  {
    var t := Strip(line);
    StrippedStart(line);
    SplitWordTwoFields(t);
    var arg := SplitWord(t)[1];
    assert IsSpace(t[|t| - |arg| - 1]);
    assert arg != [];
    assert arg[|arg| - 1] == t[|t| - 1];
  }

  /** `parse_command_line("p 1 + 1")` is `["p", "1 + 1"]`. */
  lemma ParseEvalExample()
    ensures ParseCommandLine("p 1 + 1") == (Some("p"), Some("1 + 1"))
  {
    StripUnchanged("p 1 + 1");
    SplitWordOfPair("p", " ", "1 + 1");
    assert "p" + " " + "1 + 1" == "p 1 + 1";
  }

  /** A word with nothing to strip is its own command, with no argument. */
  lemma ParseSingleWord(w: string)
    requires w != [] && NoSpace(w) && w[0] != '\0' && w[|w| - 1] != '\0'
    ensures ParseCommandLine(w) == (Some(w), None)
  {
    StripUnchanged(w);
  }

  /** A command word, one space and an argument parse back into that word and argument. */
  lemma ParseCommandAndArgument(cmd: string, arg: string)
    requires cmd != [] && NoSpace(cmd) && cmd[0] != '\0'
    requires arg != [] && !IsSpace(arg[0]) && !IsStripChar(arg[|arg| - 1])
    ensures ParseCommandLine(cmd + " " + arg) == (Some(cmd), Some(arg))
  {
    StripOfPair(cmd, arg);
    SplitWordOfPair(cmd, " ", arg);
    ParseOfFields(cmd + " " + arg, cmd, arg);
  }

  lemma StripOfPair(cmd: string, arg: string)
    requires cmd != [] && NoSpace(cmd) && cmd[0] != '\0'
    requires arg != [] && !IsStripChar(arg[|arg| - 1])
    ensures Strip(cmd + " " + arg) == cmd + " " + arg
  {
    var line := cmd + " " + arg;
    assert !IsSpace(cmd[0]);
    assert line[0] == cmd[0];
    assert line[|line| - 1] == arg[|arg| - 1];
    StripUnchanged(line);
  }

  lemma ParseOfFields(line: string, cmd: string, arg: string)
    requires Strip(line) == line && SplitWord(line) == [cmd, arg]
    ensures ParseCommandLine(line) == (Some(cmd), Some(arg))
  {
  }

  /** Every alias of the command table is one word and reaches dispatch unchanged. */
  lemma AliasesParseAsWords(c: Command, alias: string)
    requires alias in Aliases(c)
    ensures alias != [] && NoSpace(alias)
    ensures ParseCommandLine(alias) == (Some(alias), None)
  {
    AliasesAreWords(c, alias);
    ParseSingleWord(alias);
  }

  /** A single word that `strip` leaves alone. */
  predicate IsWord(w: string) {
    w != [] && NoSpace(w) && w[0] != '\0' && w[|w| - 1] != '\0'
  }

  /** Every alias is a non-empty word of printable characters. */
  lemma AliasesAreWords(c: Command, alias: string)
    requires alias in Aliases(c)
    ensures IsWord(alias)
  {
    if c == CallNext || c == CallStep || c == CallContinue || c == CallQuit {
      ControlAliasesAreWords(c, alias);
    } else if c == SafeEvalAndPrint || c == CallAddBreakpoint || c == ListLocals {
      ActionAliasesAreWords(c, alias);
    } else {
      ShowAliasesAreWords(c, alias);
    }
  }

  lemma ControlAliasesAreWords(c: Command, alias: string)
    requires c == CallNext || c == CallStep || c == CallContinue || c == CallQuit
    requires alias in Aliases(c)
    ensures IsWord(alias)
  {
  }

  lemma ActionAliasesAreWords(c: Command, alias: string)
    requires c == SafeEvalAndPrint || c == CallAddBreakpoint || c == ListLocals
    requires alias in Aliases(c)
    ensures IsWord(alias)
  {
  }

  lemma ShowAliasesAreWords(c: Command, alias: string)
    requires c == ShowBacktrace || c == ListBreakpoints || c == PrintHelp
    requires alias in Aliases(c)
    ensures IsWord(alias)
  {
  }

  // ---------------------------------------------------------------------------
  // help

  /** One line of the help body: `"    #{c.ljust(18)} - #{d}"`. */
  function HelpLine(entry: (string, string)): string {
    "    " + Ljust(entry.0, 18) + " - " + entry.1
  }

  /** The help lines, one per `HELP_COMMANDS` entry, in table order. */
  function HelpLines(): (r: seq<string>)
    ensures |r| == |HELP_COMMANDS|
    ensures forall i :: 0 <= i < |r| ==> r[i] == HelpLine(HELP_COMMANDS[i])
  {
    seq(|HELP_COMMANDS|, i requires 0 <= i < |HELP_COMMANDS| => HelpLine(HELP_COMMANDS[i]))
  }

  /** The body `print_help` interpolates: the help lines joined with newlines. */
  function HelpBody(): string {
    Join(HelpLines(), '\n')
  }

  /** The whole text `print_help` prints: a heading, then the body. */
  function HelpText(): string {
    "Commands:\n" + HelpBody() + "\n"
  }

  /**
   * A help line is four spaces, the label padded to 18 columns, " - " and the
   * description; for a label of at most 18 characters the separator is at
   * column 22.
   */
  lemma HelpLineLayout(key: string, description: string)
    requires |key| <= 18
    ensures var s := HelpLine((key, description));
      && |s| == 25 + |description|
      && s[..4] == "    " && s[4..4 + |key|] == key
      && (forall i :: 4 + |key| <= i < 22 ==> s[i] == ' ')
      && s[22..25] == " - " && s[25..] == description
  {
    var padded := Ljust(key, 18);
    var s := HelpLine((key, description));
    assert s == "    " + padded + " - " + description;
    assert s[4..22] == padded;
    assert padded[..|key|] == key;
    assert s[4..4 + |key|] == padded[..|key|];
  }

  // ---------------------------------------------------------------------------
  // read_input

  /**
   * `read_input` after the read itself: `raw` is what Readline or `gets`
   * returned (`None` at end of input). The line is chomped and lower-cased;
   * the Readline branch lower-cases once more before chomping.
   */
  function ReadInput(raw: Option<string>, readlineAvailable: bool): (r: Option<string>)
    ensures r.None? <==> raw.None?
    ensures r.Some? ==> r.value == Downcase(Chomp(raw.value))
  {
    match raw
    case None => None
    case Some(s) =>
      ChompDowncase(s);
      DowncaseIdempotent(Chomp(s));
      var line := if readlineAvailable then Downcase(s) else s;
      Some(Downcase(Chomp(line)))
  }

  /** The line `read_input` returns has no capital letters. */
  lemma ReadInputLowercase(raw: Option<string>, readlineAvailable: bool)
    requires raw.Some?
    ensures forall i :: 0 <= i < |ReadInput(raw, readlineAvailable).value| ==> !IsUpper(ReadInput(raw, readlineAvailable).value[i])
  {
  }

  /** A line whose only line break is at its end comes back with no line break at all. */
  lemma ReadInputSingleLine(raw: Option<string>, readlineAvailable: bool)
    requires raw.Some? && forall i :: 0 <= i < |raw.value| - 1 ==> raw.value[i] != '\n'
    ensures '\n' !in ReadInput(raw, readlineAvailable).value
  {
    var c := Chomp(raw.value);
    var r := ReadInput(raw, readlineAvailable).value;
    assert |c| < |raw.value| ==> raw.value[|raw.value| - 1] == '\n' || raw.value[|raw.value| - 1] == '\r';
    forall i | 0 <= i < |r| ensures r[i] != '\n' {
      assert c[i] == raw.value[i];
    }
  }

  lemma DowncaseIdempotent(s: string)
    ensures Downcase(Downcase(s)) == Downcase(s)
  {
  }

  lemma EndsWithLast(s: string, c: char)
    ensures EndsWith(s, [c]) <==> |s| >= 1 && s[|s| - 1] == c
  {
    if |s| >= 1 { assert s[|s| - 1..] == [s[|s| - 1]]; }
  }

  lemma EndsWithLastTwo(s: string, c: char, d: char)
    ensures EndsWith(s, [c, d]) <==> |s| >= 2 && s[|s| - 2] == c && s[|s| - 1] == d
  {
    if |s| >= 2 { assert s[|s| - 2..] == [s[|s| - 2], s[|s| - 1]]; }
  }

  lemma ChompDowncase(s: string)
    ensures Chomp(Downcase(s)) == Downcase(Chomp(s))
  {
    var d := Downcase(s);
    EndsWithLast(s, '\n');
    EndsWithLast(d, '\n');
    EndsWithLast(s, '\r');
    EndsWithLast(d, '\r');
    EndsWithLastTwo(s, '\r', '\n');
    EndsWithLastTwo(d, '\r', '\n');
    assert "\n" == ['\n'] && "\r" == ['\r'] && "\r\n" == ['\r', '\n'];
    var a, b := Chomp(d), Downcase(Chomp(s));
    assert |a| == |b|;
    forall i | 0 <= i < |a| ensures a[i] == b[i] {
      assert a[i] == d[i];
    }
  }

  /** Both branches of `read_input` return the same line. */
  lemma ReadInputBranchesAgree(raw: Option<string>)
    ensures ReadInput(raw, true) == ReadInput(raw, false)
  {
  }
}
