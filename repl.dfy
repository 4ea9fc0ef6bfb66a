/**
 * The operator loop run at a pause (lib/debugr/repl.rb). `start` reads lines
 * until one of them hands control back: a movement command gives the engine
 * its directive and returns, `q`/`quit`/`exit` ends the process with status
 * 0, and the end of input leaves the loop. Every other line is acted on and
 * the loop goes on.
 *
 * The input is the sequence of lines `read_input` would return. Evaluation,
 * locals, the backtrace and the help text are outputs named, not produced.
 */
module Repl {
  import opened Wrappers
  import opened RubyText
  import opened Constants
  import opened CmdHelpers
  import opened Breakpoints
  import opened TracerEngine
  import opened ReplCommands

  const EXITING: string := "Exiting debugger..."
  /** repl.rb's own listing has no full stop after this notice. */
  const LIST_UNAVAILABLE: string := "Breakpoints manager not available (not implemented yet)"

  /** What one input line asks for, as the `case cmd` of `start` reads it. */
  datatype Action =
    | Empty
    | Move(directive: Directive)
    | Quit
    | Eval(cmd: string, code: Option<string>)
    | Locals
    | Backtrace
    | AddBreak(arg: Option<string>)
    | ListBreaks
    | Help
    | Unknown(cmd: string)

  /** The `case cmd` of `start` for a command word `c` and its argument. */
  function WordAction(c: string, arg: Option<string>): (a: Action)
    ensures a != Empty
  {
    match c
    case "n" | "next" => Move(StepOver)
    case "s" | "step" => Move(StepIn)
    case "c" | "continue" => Move(Resume)
    case "q" | "quit" | "exit" => Quit
    case "p" | "eval" => Eval(c, arg)
    case "locals" => Locals
    case "where" | "bt" | "backtrace" => Backtrace
    case "b" | "break" => AddBreak(arg)
    case "breaks" | "breakpoints" | "lb" | "list" => ListBreaks
    case "help" | "?" => Help
    case _ => Unknown(c)
  }

  /** The parsed line `(cmd, arg)`: a missing word is the blank line. */
  function ActionFor(parsed: (Option<string>, Option<string>)): (a: Action)
    ensures a.Empty? <==> parsed.0.None?
  {
    if parsed.0.None? then Empty else WordAction(parsed.0.value, parsed.1)
  }

  /**
   * One line of `start`: `cmd, arg` from `line.strip.split(' ', 2)`; a blank
   * line falls through the `case` to the `next` of its `else`.
   */
  function Decide(line: string): (a: Action)
    ensures a.Empty? <==> Strip(line) == []
  {
    ActionFor(ParseCommandLine(line))
  }

  /** The action `COMMAND_ALIASES` gives a command word (`None`: not a command). */
  function ActionOf(found: Option<Command>, cmd: string, arg: Option<string>): Action {
    match found
    case None => Unknown(cmd)
    case Some(c) =>
      match c
      case CallNext => Move(StepOver)
      case CallStep => Move(StepIn)
      case CallContinue => Move(Resume)
      case CallQuit => Quit
      case SafeEvalAndPrint => Eval(cmd, arg)
      case CallAddBreakpoint => AddBreak(arg)
      case ListLocals => Locals
      case ShowBacktrace => Backtrace
      case ListBreakpoints => ListBreaks
      case PrintHelp => Help
  }

  /** Each alias of a movement or quit command is acted on as that command. */
  lemma WordActionOfControlAlias(k: Command, c: string, arg: Option<string>)
    requires k == CallNext || k == CallStep || k == CallContinue || k == CallQuit
    requires c in Aliases(k)
    ensures WordAction(c, arg) == ActionOf(Some(k), c, arg)
  {
  }

  /** The aliases of `p`, `b` and `locals` are acted on as those commands. */
  lemma WordActionOfActionAlias(k: Command, c: string, arg: Option<string>)
    requires k == SafeEvalAndPrint || k == CallAddBreakpoint || k == ListLocals
    requires c in Aliases(k)
    ensures WordAction(c, arg) == ActionOf(Some(k), c, arg)
  {
  }

  /** The aliases of the backtrace and listing commands are acted on as those commands. */
  lemma WordActionOfShowAlias(k: Command, c: string, arg: Option<string>)
    requires k == ShowBacktrace || k == ListBreakpoints
    requires c in Aliases(k)
    ensures WordAction(c, arg) == ActionOf(Some(k), c, arg)
  {
  }

  /** The aliases of `help` are acted on as `help`. */
  lemma WordActionOfHelpAlias(c: string, arg: Option<string>)
    requires c in Aliases(PrintHelp)
    ensures WordAction(c, arg) == Help
  {
  }

  /** Each alias of a command is acted on as that command. */
  lemma WordActionOfAlias(k: Command, c: string, arg: Option<string>)
    requires c in Aliases(k)
    ensures WordAction(c, arg) == ActionOf(Some(k), c, arg)
  {
    if k == CallNext || k == CallStep || k == CallContinue || k == CallQuit {
      WordActionOfControlAlias(k, c, arg);
    } else if k == SafeEvalAndPrint || k == CallAddBreakpoint || k == ListLocals {
      WordActionOfActionAlias(k, c, arg);
    } else if k == ShowBacktrace || k == ListBreakpoints {
      WordActionOfShowAlias(k, c, arg);
    } else {
      WordActionOfHelpAlias(c, arg);
    }
  }

  /** A word no command lists, other than `exit`, is an unknown command. */
  lemma WordActionOfNonAlias(c: string, arg: Option<string>)
    requires c != "exit"
    requires forall k: Command :: c !in Aliases(k)
    ensures WordAction(c, arg) == Unknown(c)
  {
    assert c !in Aliases(CallNext) && c !in Aliases(CallStep) && c !in Aliases(CallContinue);
    assert c !in Aliases(CallQuit) && c !in Aliases(SafeEvalAndPrint) && c !in Aliases(ListLocals);
    assert c !in Aliases(ShowBacktrace) && c !in Aliases(CallAddBreakpoint);
    assert c !in Aliases(ListBreakpoints) && c !in Aliases(PrintHelp);
  }

  /**
   * The loop's own `case` agrees with the alias table: every command word
   * does what `COMMAND_ALIASES` names for it, and the one word the loop
   * adds is `exit`, which quits.
   */
  lemma WordActionAgreesWithAliases(c: string, arg: Option<string>)
    ensures WordAction(c, arg) == if c == "exit" then Quit else ActionOf(Lookup(c), c, arg)
  {
    if c == "exit" {
    } else if Lookup(c).Some? {
      LookupExact(c, Lookup(c).value);
      WordActionOfAlias(Lookup(c).value, c, arg);
    } else {
      forall k: Command ensures c !in Aliases(k) {
        LookupExact(c, k);
      }
      WordActionOfNonAlias(c, arg);
    }
  }

  /** An output the loop produces. */
  datatype Output =
    | Print(text: string)
    | UnknownCommand(cmd: string)
    | Evaluate(code: string)
    | LocalsShown
    | BacktraceShown
    | HelpShown

  /** How `start` ends. */
  datatype LoopEnd = Resumed(directive: Directive) | Exited(status: int) | EndOfInput

  /** The outputs, how the loop ended, and the engine and registry afterwards. */
  datatype ReplResult = ReplResult(outputs: seq<Output>, end: LoopEnd, engine: EngineState, registry: Option<Registry>)

  /** Prints each listing line. */
  function PrintAll(lines: seq<string>): (r: seq<Output>)
    ensures |r| == |lines| && forall i :: 0 <= i < |lines| ==> r[i] == Print(lines[i])
  {
    seq(|lines|, i requires 0 <= i < |lines| => Print(lines[i]))
  }

  /** Neither a movement command nor a quit: the loop goes on after this action. */
  predicate Continues(a: Action) {
    !a.Move? && a != Quit
  }

  /**
   * An action that keeps the loop going: what it prints and the registry
   * afterwards. `b` adds through the registry's `add(arg, tp)`.
   */
  function Perform(a: Action, reg: Option<Registry>, tpPath: string, tpBinding: Binding,
                   expandPath: string -> string): (r: (seq<Output>, Option<Registry>))
    requires Continues(a)
    ensures !a.AddBreak? ==> r.1 == reg
    ensures a.AddBreak? && reg.Some? && !Blank(a.arg) ==> r.1.Some? && |r.1.value.entries| == |reg.value.entries| + 1
  {
    match a
    case Empty => ([], reg)
    case Eval(cmd, code) =>
      if code.None? then ([Print("Usage: " + cmd + " <ruby_code>")], reg) else ([Evaluate(code.value)], reg)
    case Locals => ([LocalsShown], reg)
    case Backtrace => ([BacktraceShown], reg)
    case AddBreak(arg) =>
      var added := AddBreakpointSpec(arg, reg, tpPath, tpBinding, expandPath);
      ([Print(added.0)], added.1)
    case ListBreaks =>
      if reg.None? then ([Print(LIST_UNAVAILABLE)], reg) else (PrintAll(ListingLines(reg.value.entries)), reg)
    case Help => ([HelpShown], reg)
    case Unknown(cmd) => ([UnknownCommand(cmd)], reg)
  }

  /** The actions of the input lines, in order. */
  function Decisions(lines: seq<string>): (r: seq<Action>)
    ensures |r| == |lines|
  {
    seq(|lines|, i requires 0 <= i < |lines| => Decide(lines[i]))
  }

  /** `b` prints the line `call_add_breakpoint` reports and keeps the registry it leaves. */
  lemma PerformAdd(arg: Option<string>, reg: Option<Registry>, tpPath: string, tpBinding: Binding,
                   expandPath: string -> string)
    ensures var added := AddBreakpointSpec(arg, reg, tpPath, tpBinding, expandPath);
      Perform(AddBreak(arg), reg, tpPath, tpBinding, expandPath) == ([Print(added.0)], added.1)
  {
  }

  /** Two lines are decided one by one. */
  lemma DecisionsOfTwo(first: string, second: string)
    ensures Decisions([first, second]) == [Decide(first), Decide(second)]
  {
    var d := Decisions([first, second]);
    assert d[0] == Decide(first) && d[1] == Decide(second);
  }

  /** `r` with `out` printed before its outputs. */
  function Prepend(out: seq<Output>, r: ReplResult): ReplResult {
    r.(outputs := out + r.outputs)
  }

  /** One turn of the loop: its outputs, how it ends the loop if it does, and the state after it. */
  datatype Turn = Turn(outputs: seq<Output>, stop: Option<LoopEnd>, engine: EngineState, registry: Option<Registry>)

  /** One pass of `loop do`: the action of one line, from engine state `es` and registry `reg`. */
  function TurnOf(a: Action, es: EngineState, reg: Option<Registry>, tpPath: string, tpBinding: Binding,
                  expandPath: string -> string): (t: Turn)
    ensures t.stop.None? <==> Continues(a)
    ensures t.stop.None? ==> t.engine == es
  {
    if a.Move? then Turn([], Some(Resumed(a.directive)), ApplyDirective(es, a.directive), reg)
    else if a == Quit then Turn([Print(EXITING)], Some(Exited(0)), es, reg)
    else
      var (out, next) := Perform(a, reg, tpPath, tpBinding, expandPath);
      Turn(out, None, es, next)
  }

  /**
   * `start` over the actions of the input lines, from engine state `es` and
   * registry `reg`: only a movement command touches the engine.
   */
  function ReplRun(actions: seq<Action>, es: EngineState, reg: Option<Registry>, tpPath: string, tpBinding: Binding,
                   expandPath: string -> string): (r: ReplResult)
    ensures r.end.Resumed? ==> r.engine == ApplyDirective(es, r.end.directive)
    ensures !r.end.Resumed? ==> r.engine == es
    decreases |actions|
  {
    if actions == [] then ReplResult([], EndOfInput, es, reg)
    else
      var t := TurnOf(actions[0], es, reg, tpPath, tpBinding, expandPath);
      if t.stop.Some? then ReplResult(t.outputs, t.stop.value, t.engine, t.registry)
      else
        var rest := ReplRun(actions[1..], es, t.registry, tpPath, tpBinding, expandPath);
        Prepend(t.outputs, rest)
  }

  /**
   * End of input with no movement or quit command in it: the loop ends
   * without calling any engine directive.
   */
  lemma {:induction false} EndOfInputLeavesEngine(actions: seq<Action>, es: EngineState, reg: Option<Registry>,
                                                  tpPath: string, tpBinding: Binding, expandPath: string -> string)
    requires forall i :: 0 <= i < |actions| ==> Continues(actions[i])
    ensures ReplRun(actions, es, reg, tpPath, tpBinding, expandPath).end == EndOfInput
    ensures ReplRun(actions, es, reg, tpPath, tpBinding, expandPath).engine == es
    decreases |actions|
  {
    if actions != [] {
      var next := Perform(actions[0], reg, tpPath, tpBinding, expandPath).1;
      forall i | 0 <= i < |actions[1..]| ensures Continues(actions[1..][i]) {
        assert actions[1..][i] == actions[i + 1];
      }
      EndOfInputLeavesEngine(actions[1..], es, next, tpPath, tpBinding, expandPath);
    }
  }

  /** An action that keeps the loop going prints its outputs and the loop reads on. */
  lemma ContinuesAfter(a: Action, rest: seq<Action>, es: EngineState, reg: Option<Registry>,
                       tpPath: string, tpBinding: Binding, expandPath: string -> string)
    requires Continues(a)
    ensures var (out, next) := Perform(a, reg, tpPath, tpBinding, expandPath);
      var r := ReplRun(rest, es, next, tpPath, tpBinding, expandPath);
      ReplRun([a] + rest, es, reg, tpPath, tpBinding, expandPath) == Prepend(out, r)
  {
    assert ([a] + rest)[0] == a && ([a] + rest)[1..] == rest;
  }

  /** An empty line prints nothing and the loop reads on. */
  lemma BlankLineSkipped(line: string, rest: seq<Action>, es: EngineState, reg: Option<Registry>,
                         tpPath: string, tpBinding: Binding, expandPath: string -> string)
    requires Strip(line) == []
    ensures ReplRun([Decide(line)] + rest, es, reg, tpPath, tpBinding, expandPath) == ReplRun(rest, es, reg, tpPath, tpBinding, expandPath)
  {
    ContinuesAfter(Empty, rest, es, reg, tpPath, tpBinding, expandPath);
    assert [] + ReplRun(rest, es, reg, tpPath, tpBinding, expandPath).outputs == ReplRun(rest, es, reg, tpPath, tpBinding, expandPath).outputs;
  }

  /** The directive the alias table's movement commands stand for. */
  function DirectiveOf(c: Command): Option<Directive> {
    match c
    case CallNext => Some(StepOver)
    case CallStep => Some(StepIn)
    case CallContinue => Some(Resume)
    case _ => None
  }

  /** An alias typed alone is that command with no argument. */
  lemma DecideAlias(k: Command, w: string)
    requires w in Aliases(k)
    ensures Decide(w) == ActionOf(Some(k), w, None)
  {
    AliasesParseAsWords(k, w);
    WordActionOfAlias(k, w, None);
  }

  /**
   * `n`/`next`, `s`/`step` and `c`/`continue` give the engine `next!`,
   * `step!` and `continue!` and end the loop at once, printing nothing.
   */
  lemma MovementEndsLoop(c: Command, alias: string, rest: seq<Action>, es: EngineState, reg: Option<Registry>,
                         tpPath: string, tpBinding: Binding, expandPath: string -> string)
    requires alias in Aliases(c) && DirectiveOf(c).Some?
    ensures ReplRun([Decide(alias)] + rest, es, reg, tpPath, tpBinding, expandPath)
      == ReplResult([], Resumed(DirectiveOf(c).value), ApplyDirective(es, DirectiveOf(c).value), reg)
  {
    var d := DirectiveOf(c).value;
    assert ActionOf(Some(c), alias, None) == Move(d);
    DecideAlias(c, alias);
    MoveEndsRun(d, rest, es, reg, tpPath, tpBinding, expandPath);
  }

  /** A movement action ends the run at once with the engine given that directive. */
  lemma MoveEndsRun(d: Directive, rest: seq<Action>, es: EngineState, reg: Option<Registry>,
                    tpPath: string, tpBinding: Binding, expandPath: string -> string)
    ensures ReplRun([Move(d)] + rest, es, reg, tpPath, tpBinding, expandPath)
      == ReplResult([], Resumed(d), ApplyDirective(es, d), reg)
  {
    assert ([Move(d)] + rest)[0] == Move(d);
  }

  /** A word typed alone, with nothing to strip, is acted on as that word with no argument. */
  lemma DecideWord(w: string)
    requires w != [] && NoSpace(w) && w[0] != '\0' && w[|w| - 1] != '\0'
    ensures Decide(w) == WordAction(w, None)
  {
    ParseSingleWord(w);
  }

  /** `q` and `quit`, and the `exit` the loop adds, are the quit action. */
  lemma DecideQuit(word: string)
    requires word in Aliases(CallQuit) || word == "exit"
    ensures Decide(word) == Quit
  {
    if word == "exit" {
      DecideWord(word);
    } else {
      DecideAlias(CallQuit, word);
    }
  }

  /** `q`, `quit` and `exit` print the farewell and end with status 0. */
  lemma QuitExits(word: string, rest: seq<Action>, es: EngineState, reg: Option<Registry>,
                  tpPath: string, tpBinding: Binding, expandPath: string -> string)
    requires word in Aliases(CallQuit) || word == "exit"
    ensures ReplRun([Decide(word)] + rest, es, reg, tpPath, tpBinding, expandPath) == ReplResult([Print(EXITING)], Exited(0), es, reg)
  {
    DecideQuit(word);
    assert ([Quit] + rest)[0] == Quit;
  }

  /** An unrecognised word prints the unknown-command message and the loop reads on. */
  lemma UnknownKeepsLooping(cmd: string, rest: seq<Action>, es: EngineState, reg: Option<Registry>,
                            tpPath: string, tpBinding: Binding, expandPath: string -> string)
    ensures ReplRun([Unknown(cmd)] + rest, es, reg, tpPath, tpBinding, expandPath)
      == Prepend([UnknownCommand(cmd)], ReplRun(rest, es, reg, tpPath, tpBinding, expandPath))
  {
    ContinuesAfter(Unknown(cmd), rest, es, reg, tpPath, tpBinding, expandPath);
  }

  /**
   * `p`, `locals`, `where`, `b`, `breaks` and `help`, under any of their
   * aliases and with any argument, keep the loop going: only movement and
   * quit commands end it.
   */
  lemma OtherCommandsContinue(k: Command, w: string, arg: Option<string>)
    ensures Continues(ActionOf(Some(k), w, arg)) <==> DirectiveOf(k).None? && k != CallQuit
  {
  }

  /** `p` or `eval` with no argument prints the usage line instead of evaluating, and the loop reads on. */
  lemma EvalWithoutCode(cmd: string, rest: seq<Action>, es: EngineState, reg: Option<Registry>,
                        tpPath: string, tpBinding: Binding, expandPath: string -> string)
    ensures ReplRun([Eval(cmd, None)] + rest, es, reg, tpPath, tpBinding, expandPath)
      == Prepend([Print("Usage: " + cmd + " <ruby_code>")], ReplRun(rest, es, reg, tpPath, tpBinding, expandPath))
  {
    ContinuesAfter(Eval(cmd, None), rest, es, reg, tpPath, tpBinding, expandPath);
  }

  /** A line parsed into an alias and an argument is that command with that argument. */
  lemma DecideParsed(line: string, k: Command, w: string, arg: Option<string>)
    requires ParseCommandLine(line) == (Some(w), arg) && w in Aliases(k)
    ensures Decide(line) == ActionOf(Some(k), w, arg)
  {
    WordActionOfAlias(k, w, arg);
  }

  /** An alias, one space and an argument: that command with that argument. */
  lemma DecideWithArgument(k: Command, w: string, arg: string)
    requires w in Aliases(k)
    requires arg != [] && !IsSpace(arg[0]) && !IsStripChar(arg[|arg| - 1])
    ensures Decide(w + " " + arg) == ActionOf(Some(k), w, Some(arg))
  {
    AliasesParseAsWords(k, w);
    ParseCommandAndArgument(w, arg);
    DecideParsed(w + " " + arg, k, w, Some(arg));
  }

  /**
   * The first breakpoint, added as `file:n`, is breakpoint 1 at the expanded
   * file and line `n`, and the registry holds it alone.
   */
  lemma AddToFresh(file: string, n: int, tpPath: string, tpBinding: Binding, expandPath: string -> string)
    requires Idempotent(expandPath)
    requires ':' !in file
    ensures var e := Entry(1, expandPath(file), n, tpBinding, true);
      AddBreakpointSpec(Some(file + ":" + IntToString(n)), Some(FRESH), tpPath, tpBinding, expandPath)
        == (AddedMessage(e), Some(Registry([e], 2)))
  {
    var arg := file + ":" + IntToString(n);
    LocationNotBlank(file, n);
    LocationWithFile(file, n, [], tpPath, expandPath);
    assert arg + [] == arg;
    assert expandPath(expandPath(file)) == expandPath(file);
    var e := Entry(1, expandPath(file), n, tpBinding, true);
    assert AddSpec(FRESH, arg, tpPath, tpBinding, expandPath) == Registry([e], 2);
  }

  /** The first breakpoint's report and listing line, written out. */
  lemma FirstEntryText(file: string, n: int, b: Binding)
    ensures AddedMessage(Entry(1, file, n, b, true)) == "Breakpoint #1 set at " + file + ":" + IntToString(n)
    ensures FormatEntry(Entry(1, file, n, b, true)) == "1: " + file + ":" + IntToString(n) + " "
  {
    assert IntToString(1) == "1";
    var t := file + ":" + IntToString(n);
    assert "1" + ": " + file + ":" + IntToString(n) + " " + "" == "1: " + t + " ";
    assert "Breakpoint #" + "1" + " set at " + file + ":" + IntToString(n) == "Breakpoint #1 set at " + t;
  }

  /**
   * Adding `file:n` and then listing, on a fresh registry: the add reports
   * breakpoint 1 at the expanded file and line `n`, the listing shows that
   * one enabled breakpoint, and the input ends.
   */
  lemma AddThenList(file: string, n: int, es: EngineState, tpPath: string, tpBinding: Binding,
                    expandPath: string -> string)
    requires Idempotent(expandPath)
    requires ':' !in file
    ensures var e := Entry(1, expandPath(file), n, tpBinding, true);
      var r := ReplRun([AddBreak(Some(file + ":" + IntToString(n))), ListBreaks], es, Some(FRESH), tpPath, tpBinding, expandPath);
      && r.outputs == [Print(AddedMessage(e)), Print(FormatEntry(e))]
      && r.end == EndOfInput
      && r.registry == Some(Registry([e], 2))
  {
    var arg := file + ":" + IntToString(n);
    var e := Entry(1, expandPath(file), n, tpBinding, true);
    var next := Some(Registry([e], 2));
    ListLast(e, 2, es, tpPath, tpBinding, expandPath);
    AddToFresh(file, n, tpPath, tpBinding, expandPath);
    PerformAdd(Some(arg), Some(FRESH), tpPath, tpBinding, expandPath);
    var p := Perform(AddBreak(Some(arg)), Some(FRESH), tpPath, tpBinding, expandPath);
    assert p == ([Print(AddedMessage(e))], next);
    ContinuesAfter(AddBreak(Some(arg)), [ListBreaks], es, Some(FRESH), tpPath, tpBinding, expandPath);
    assert [AddBreak(Some(arg)), ListBreaks] == [AddBreak(Some(arg))] + [ListBreaks];
    var r := ReplRun([AddBreak(Some(arg)), ListBreaks], es, Some(FRESH), tpPath, tpBinding, expandPath);
    assert r == Prepend(p.0, ReplRun([ListBreaks], es, next, tpPath, tpBinding, expandPath));
    assert r == Prepend([Print(AddedMessage(e))], ReplResult([Print(FormatEntry(e))], EndOfInput, es, next));
  }

  /** Listing one enabled breakpoint as the last line prints its line, and the input ends. */
  lemma ListLast(e: Entry, nextId: int, es: EngineState, tpPath: string, tpBinding: Binding,
                 expandPath: string -> string)
    ensures var reg := Some(Registry([e], nextId));
      ReplRun([ListBreaks], es, reg, tpPath, tpBinding, expandPath) == ReplResult([Print(FormatEntry(e))], EndOfInput, es, reg)
  {
    var reg := Some(Registry([e], nextId));
    assert ListingLines([e])[0] == FormatEntry(e);
    assert PrintAll(ListingLines([e])) == [Print(FormatEntry(e))];
    ContinuesAfter(ListBreaks, [], es, reg, tpPath, tpBinding, expandPath);
    assert [ListBreaks] + [] == [ListBreaks];
    assert [Print(FormatEntry(e))] + [] == [Print(FormatEntry(e))];
  }

  /** `file:n` ends in a digit of `n`, which `strip` leaves in place. */
  lemma LocationLastChar(file: string, n: int)
    ensures var arg := file + ":" + IntToString(n); !IsStripChar(arg[|arg| - 1])
  {
    var arg := file + ":" + IntToString(n);
    var s := IntToString(n);
    assert arg[|arg| - 1] == s[|s| - 1];
    assert IsDigit(s[|s| - 1]);
  }

  /** The lines `b file:n` and `breaks` (in any of their aliases) are the add and list actions. */
  lemma BreakThenListLines(add: string, list: string, file: string, n: int)
    requires add in Aliases(CallAddBreakpoint) && list in Aliases(ListBreakpoints)
    requires file != [] && !IsSpace(file[0])
    ensures Decisions([add + " " + (file + ":" + IntToString(n)), list])
      == [AddBreak(Some(file + ":" + IntToString(n))), ListBreaks]
  {
    var arg := file + ":" + IntToString(n);
    assert ActionOf(Some(CallAddBreakpoint), add, Some(arg)) == AddBreak(Some(arg));
    assert ActionOf(Some(ListBreakpoints), list, None) == ListBreaks;
    LocationLastChar(file, n);
    DecideWithArgument(CallAddBreakpoint, add, arg);
    DecideAlias(ListBreakpoints, list);
    DecisionsOfTwo(add + " " + arg, list);
  }

  /**
   * `b file:n` and then `breaks` on a fresh registry: the first line reports
   * breakpoint 1 at the expanded file and line `n`, the listing shows that
   * one enabled breakpoint, and then the input ends.
   */
  lemma BreakThenList(add: string, list: string, file: string, n: int, es: EngineState, tpPath: string,
                      tpBinding: Binding, expandPath: string -> string)
    requires add in Aliases(CallAddBreakpoint) && list in Aliases(ListBreakpoints)
    requires Idempotent(expandPath)
    requires file != [] && !IsSpace(file[0]) && ':' !in file
    ensures var r := ReplRun(Decisions([add + " " + (file + ":" + IntToString(n)), list]), es, Some(FRESH),
                             tpPath, tpBinding, expandPath);
      && r.outputs == [Print("Breakpoint #1 set at " + expandPath(file) + ":" + IntToString(n)),
                       Print("1: " + expandPath(file) + ":" + IntToString(n) + " ")]
      && r.end == EndOfInput
  {
    BreakThenListLines(add, list, file, n);
    AddThenList(file, n, es, tpPath, tpBinding, expandPath);
    FirstEntryText(expandPath(file), n, tpBinding);
  }

  /**
   * The as-written `add_breakpoint` (repl.rb:138-149): after its own parse
   * it calls the registry's `add` with three arguments, where `add` takes two.
   */
  datatype AddOutcome = Reported(text: string) | ArgumentError(given: nat, expected: nat)

  /** The parameters of `BreakpointManager#add(arg, tp)`. */
  const ADD_ARITY: nat := 2

  /** `add_breakpoint(arg)` as written: usage, unavailable, or the call `add(file, line, binding)`. */
  function AddBreakpointAsWritten(arg: Option<string>, reg: Option<Registry>): (r: AddOutcome)
    ensures Blank(arg) ==> r == Reported(USAGE)
    ensures !Blank(arg) && reg.None? ==> r == Reported(UNAVAILABLE)
  {
    if Blank(arg) then Reported(USAGE)
    else if reg.None? then Reported(UNAVAILABLE)
    else
      // `add(file, line, binding)` at repl.rb:148 passes three arguments
      ArgumentError(3, ADD_ARITY)
  }

  /** With a manager and any non-blank argument, the as-written call raises instead of adding. */
  lemma AsWrittenAddRaises(arg: Option<string>, reg: Option<Registry>, tpPath: string, tpBinding: Binding,
                            expandPath: string -> string)
    requires !Blank(arg) && reg.Some?
    ensures AddBreakpointAsWritten(arg, reg) == ArgumentError(3, 2)
    ensures Perform(AddBreak(arg), reg, tpPath, tpBinding, expandPath).1 != reg
  {
    var next := AddSpec(reg.value, arg.value, tpPath, tpBinding, expandPath);
    assert |next.entries| == |reg.value.entries| + 1;
  }

  /** The run from line `i` on: that line's turn and, unless it ends the loop, the run from the next line. */
  lemma RunAt(actions: seq<Action>, i: nat, es: EngineState, reg: Option<Registry>,
              tpPath: string, tpBinding: Binding, expandPath: string -> string)
    requires i < |actions|
    ensures var t := TurnOf(actions[i], es, reg, tpPath, tpBinding, expandPath);
      ReplRun(actions[i..], es, reg, tpPath, tpBinding, expandPath)
        == if t.stop.Some? then ReplResult(t.outputs, t.stop.value, t.engine, t.registry)
           else Prepend(t.outputs, ReplRun(actions[i + 1..], es, t.registry, tpPath, tpBinding, expandPath))
  {
    assert actions[i..][0] == actions[i] && actions[i..][1..] == actions[i + 1..];
  }

  lemma PrependTwice(a: seq<Output>, b: seq<Output>, r: ReplResult)
    ensures Prepend(a, Prepend(b, r)) == Prepend(a + b, r)
  {
    assert a + (b + r.outputs) == (a + b) + r.outputs;
  }

  lemma PrependEmpty(a: seq<Output>, r: ReplResult)
    requires r.outputs == []
    ensures Prepend(a, r) == r.(outputs := a)
  {
    assert a + [] == a;
  }

  // ---------------------------------------------------------------------------
  // The loop object

  /** The registry of an optional manager. */
  function RegistryOf(m: BreakpointManager?): (r: Option<Registry>)
    reads m, if m == null then [] else m.bps
    ensures r.None? <==> m == null
  {
    if m == null then None else Some(m.State())
  }

  /** `REPL`: the engine, the paused trace point and `@session&.breakpoints`. */
  class Repl {
    const engine: Engine
    const tpPath: string
    const tpBinding: Binding
    const manager: BreakpointManager?

    constructor (engine: Engine, tpPath: string, tpBinding: Binding, manager: BreakpointManager?)
      ensures this.engine == engine && this.tpPath == tpPath && this.tpBinding == tpBinding
      ensures this.manager == manager
    {
      this.engine := engine;
      this.tpPath := tpPath;
      this.tpBinding := tpBinding;
      this.manager := manager;
    }

    /** The registry's `File.expand_path` (any function when there is no registry). */
    function Expand(): string -> string {
      if manager == null then p => p else manager.expandPath
    }

    /** One line that keeps the loop going, on the objects. */
    method PerformLine(a: Action) returns (out: seq<Output>)
      requires Continues(a)
      modifies manager
      ensures (out, RegistryOf(manager)) == Perform(a, old(RegistryOf(manager)), tpPath, tpBinding, Expand())
    {
      match a {
        case Empty => out := [];
        case Eval(cmd, code) =>
          if code.None? { out := [Print("Usage: " + cmd + " <ruby_code>")]; } else { out := [Evaluate(code.value)]; }
        case Locals => out := [LocalsShown];
        case Backtrace => out := [BacktraceShown];
        case AddBreak(arg) =>
          if Blank(arg) {
            out := [Print(USAGE)];
          } else if manager == null {
            out := [Print(UNAVAILABLE)];
          } else {
            var _ := manager.Add(arg.value, tpPath, tpBinding);
            var bps := manager.List();
            out := [Print(AddedMessage(bps[|bps| - 1].View()))];
          }
        case ListBreaks =>
          if manager == null {
            out := [Print(LIST_UNAVAILABLE)];
          } else {
            var lines := Listing(manager);
            out := PrintAll(lines);
          }
        case Help => out := [HelpShown];
        case Unknown(cmd) => out := [UnknownCommand(cmd)];
      }
    }

    /** `@engine.next!`, `step!` or `continue!`; the registry is untouched. */
    method Direct(d: Directive)
      modifies engine
      ensures engine.State() == ApplyDirective(old(engine.State()), d)
      ensures RegistryOf(manager) == old(RegistryOf(manager))
    {
      match d {
        case StepOver => engine.DoNext();
        case StepIn => engine.DoStep();
        case Resume => engine.DoContinue();
      }
    }

    /** One pass of the loop on the objects: the turn `TurnOf` gives. */
    method TakeTurn(a: Action) returns (out: seq<Output>, stop: Option<LoopEnd>)
      modifies engine, manager
      ensures Turn(out, stop, engine.State(), RegistryOf(manager))
        == TurnOf(a, old(engine.State()), old(RegistryOf(manager)), tpPath, tpBinding, Expand())
    {
      if a.Move? {
        Direct(a.directive);
        out, stop := [], Some(Resumed(a.directive));
      } else if a == Quit {
        out, stop := [Print(EXITING)], Some(Exited(0));
      } else {
        out := PerformLine(a);
        stop := None;
      }
    }

    /**
     * The loop of `start` over the lines' actions, in order; the outputs,
     * the way the loop ends, the engine's state and the registry are those
     * `ReplRun` gives.
     */
    method Run(actions: seq<Action>) returns (outputs: seq<Output>, end: LoopEnd)
      modifies engine, manager
      ensures ReplResult(outputs, end, engine.State(), RegistryOf(manager))
        == ReplRun(actions, old(engine.State()), old(RegistryOf(manager)), tpPath, tpBinding, Expand())
    {
      ghost var es := engine.State();
      ghost var total := ReplRun(actions, es, RegistryOf(manager), tpPath, tpBinding, Expand());
      outputs := [];
      var i := 0;
      while i < |actions|
        invariant 0 <= i <= |actions|
        invariant engine.State() == es
        invariant total == Prepend(outputs, ReplRun(actions[i..], es, RegistryOf(manager), tpPath, tpBinding, Expand()))
        decreases |actions| - i
      {
        ghost var reg := RegistryOf(manager);
        ghost var t := TurnOf(actions[i], es, reg, tpPath, tpBinding, Expand());
        RunAt(actions, i, es, reg, tpPath, tpBinding, Expand());
        ghost var before := outputs;
        var out, stop := TakeTurn(actions[i]);
        outputs := outputs + out;
        if stop.Some? {
          end := stop.value;
          return;
        }
        i := i + 1;
        PrependTwice(before, out, ReplRun(actions[i..], es, t.registry, tpPath, tpBinding, Expand()));
      }
      end := EndOfInput;
      assert actions[i..] == [];
      PrependEmpty(outputs, ReplRun([], es, RegistryOf(manager), tpPath, tpBinding, Expand()));
    }

    /**
     * `start` on the lines `read_input` returns: each line is decided as
     * the `case` does, and the loop runs on those actions.
     */
    method Start(input: seq<string>) returns (outputs: seq<Output>, end: LoopEnd)
      modifies engine, manager
      ensures ReplResult(outputs, end, engine.State(), RegistryOf(manager))
        == ReplRun(Decisions(input), old(engine.State()), old(RegistryOf(manager)), tpPath, tpBinding, Expand())
    {
      outputs, end := Run(Decisions(input));
    }
  }
}
