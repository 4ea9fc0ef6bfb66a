/**
 * The handlers the operator loop dispatches to (lib/debugr/utils/repl_commands.rb):
 * the movement commands hand a directive to the engine and end the loop;
 * `b` adds a breakpoint and reports it; `breaks` lists the registry.
 *
 * Evaluation in the paused frame, local variables and the backtrace are Ruby
 * reflection and are not part of this model.
 */
module ReplCommands {
  import opened Wrappers
  import opened RubyText
  import opened Constants
  import opened CmdHelpers
  import opened CommandLine
  import opened Breakpoints
  import opened TracerEngine

  const USAGE: string := "Usage: b file.rb:line   or  b line (uses current file)"
  const UNAVAILABLE: string := "Breakpoints manager not available (not implemented yet)."
  const NO_BREAKPOINTS: string := "(no breakpoints)"
  const DISABLED: string := "(disabled)"

  /** `arg.nil? || arg.strip.empty?` */
  predicate Blank(arg: Option<string>) {
    arg.None? || Strip(arg.value) == []
  }

  /** `"Breakpoint ##{bp.id} set at #{bp.file}:#{bp.line}"` */
  function AddedMessage(e: Entry): string {
    "Breakpoint #" + IntToString(e.id) + " set at " + e.file + ":" + IntToString(e.line)
  }

  /**
   * `call_add_breakpoint(arg)` on values: the line printed and the registry
   * afterwards (`None` when there is no manager). A blank argument prints the
   * usage, no manager prints that it is unavailable, and otherwise one
   * breakpoint is added and the last entry of the list is reported.
   */
  function AddBreakpointSpec(arg: Option<string>, reg: Option<Registry>, tpPath: string, tpBinding: Binding,
                             expandPath: string -> string): (r: (string, Option<Registry>))
    ensures Blank(arg) ==> r == (USAGE, reg)
    ensures !Blank(arg) && reg.None? ==> r == (UNAVAILABLE, None)
    ensures !Blank(arg) && reg.Some? ==>
      && r.1 == Some(AddSpec(reg.value, arg.value, tpPath, tpBinding, expandPath))
      && r.0 == AddedMessage(r.1.value.entries[|r.1.value.entries| - 1])
  {
    if Blank(arg) then (USAGE, reg)
    else if reg.None? then (UNAVAILABLE, None)
    else
      var next := AddSpec(reg.value, arg.value, tpPath, tpBinding, expandPath);
      (AddedMessage(next.entries[|next.entries| - 1]), Some(next))
  }

  /** A location `"file:n"` is never blank. */
  lemma LocationNotBlank(file: string, n: int)
    ensures !Blank(Some(file + ":" + IntToString(n)))
  {
    var s := file + ":" + IntToString(n);
    assert s[|file|] == ':' && !IsStripChar(s[|file|]);
  }

  /**
   * `b file:n` with a manager reports the next id in sequence, the expanded
   * file and the line `n`, when the registry is well numbered and
   * `expand_path` is idempotent.
   */
  lemma AddBreakpointReport(reg: Registry, file: string, n: int, tpPath: string, tpBinding: Binding,
                            expandPath: string -> string)
    requires WellNumbered(reg) && Idempotent(expandPath) && ':' !in file
    ensures var r := AddBreakpointSpec(Some(file + ":" + IntToString(n)), Some(reg), tpPath, tpBinding, expandPath);
      && r.0 == "Breakpoint #" + IntToString(|reg.entries| + 1) + " set at " + expandPath(file) + ":" + IntToString(n)
      && r.1.Some? && WellNumbered(r.1.value)
  {
    var arg := file + ":" + IntToString(n);
    LocationNotBlank(file, n);
    LocationWithFile(file, n, [], tpPath, expandPath);
    assert arg + [] == arg;
    AddKeepsNumbering(reg, arg, tpPath, tpBinding, expandPath);
    assert expandPath(expandPath(file)) == expandPath(file);
  }

  /** `"#{bp.id}: #{bp.file}:#{bp.line} #{bp.enabled ? '' : '(disabled)'}"` */
  function FormatEntry(e: Entry): string {
    IntToString(e.id) + ": " + e.file + ":" + IntToString(e.line) + " " + (if e.enabled then "" else DISABLED)
  }

  /** What `list_breakpoints` prints: one line per breakpoint in list order, or the empty notice. */
  function ListingLines(entries: seq<Entry>): (r: seq<string>)
    ensures entries == [] ==> r == [NO_BREAKPOINTS]
    ensures entries != [] ==> |r| == |entries| && forall i :: 0 <= i < |entries| ==> r[i] == FormatEntry(entries[i])
  {
    if entries == [] then [NO_BREAKPOINTS]
    else seq(|entries|, i requires 0 <= i < |entries| => FormatEntry(entries[i]))
  }

  /** A breakpoint line starts with the id, so it is never the empty notice. */
  lemma FormatEntryStart(e: Entry)
    ensures FormatEntry(e) != [] && FormatEntry(e)[0] != '('
    ensures FormatEntry(e) != NO_BREAKPOINTS
  {
    var s := IntToString(e.id);
    assert FormatEntry(e)[0] == s[0];
    assert IsDigit(s[0]) || s[0] == '-';
    assert NO_BREAKPOINTS[0] == '(';
  }

  /** `(no breakpoints)` is printed exactly when the list is empty. */
  lemma NoticeIffEmpty(entries: seq<Entry>)
    ensures NO_BREAKPOINTS in ListingLines(entries) <==> entries == []
  {
    if entries != [] {
      forall i | 0 <= i < |entries| ensures ListingLines(entries)[i] != NO_BREAKPOINTS {
        FormatEntryStart(entries[i]);
      }
    }
  }

  /** Only a disabled breakpoint's line ends with `(disabled)`; an enabled one ends with the space. */
  lemma DisabledMarker(e: Entry)
    ensures EndsWith(FormatEntry(e), DISABLED) <==> !e.enabled
    ensures e.enabled ==> FormatEntry(e)[|FormatEntry(e)| - 1] == ' '
  {
    var s := FormatEntry(e);
    var head := IntToString(e.id) + ": " + e.file + ":" + IntToString(e.line) + " ";
    if e.enabled {
      assert s == head;
      assert s[|s| - 1] == ' ';
      assert DISABLED[|DISABLED| - 1] == ')';
      LastCharRulesOutSuffix(s, DISABLED);
    } else {
      assert s == head + DISABLED;
      assert s[|s| - |DISABLED|..] == DISABLED;
    }
  }

  lemma LastCharRulesOutSuffix(s: string, suffix: string)
    requires s != [] && suffix != [] && s[|s| - 1] != suffix[|suffix| - 1]
    ensures !EndsWith(s, suffix)
  {
    if |suffix| <= |s| {
      assert s[|s| - |suffix|..][|suffix| - 1] == s[|s| - 1];
    }
  }

  /** Reading a line back with `to_i` gives the breakpoint's id, since a colon follows it. */
  lemma FormatEntryId(e: Entry)
    ensures ToI(FormatEntry(e)) == e.id
  {
    var rest := ": " + e.file + ":" + IntToString(e.line) + " " + (if e.enabled then "" else DISABLED);
    assert FormatEntry(e) == IntToString(e.id) + rest;
    assert rest[0] == ':';
    ToIOfIntToString(e.id, rest);
  }

  /** `bps.each { puts ... }`: the listing lines of the manager's breakpoints. */
  method Listing(manager: BreakpointManager) returns (lines: seq<string>)
    ensures lines == ListingLines(manager.State().entries)
  {
    var bps := manager.List();
    if |bps| == 0 {
      return [NO_BREAKPOINTS];
    }
    lines := [];
    var i := 0;
    while i < |bps|
      invariant 0 <= i <= |bps|
      invariant |lines| == i
      invariant forall k :: 0 <= k < i ==> lines[k] == FormatEntry(bps[k].View())
    {
      var b := bps[i];
      lines := lines + [FormatEntry(Entry(b.id, b.file, b.line, b.binding, b.enabled))];
      i := i + 1;
    }
  }

  /**
   * What a handler gives the dispatcher for command `c`, sent with `arg` or,
   * when `arg` is `None`, with no argument. `call_next`, `call_step` and
   * `call_continue` return `:break_loop`. `call_add_breakpoint(arg)` and
   * `safe_eval_and_print(code_to_eval)` require their argument, so a bare `b`
   * or `p` raises `ArgumentError`. No file defines `call_quit` (the quit
   * handler is `quit!`), so `q` raises `NoMethodError`. The other handlers
   * take an optional argument and return something other than `:break_loop`.
   * Evaluation is taken to return or to raise a `StandardError`, which
   * `safe_eval_and_print` rescues.
   */
  function HandlerResultOf(c: Command, arg: Option<string>): (r: HandlerResult)
    ensures r == BreakLoop <==> c == CallNext || c == CallStep || c == CallContinue
    ensures r == Raises(NoMethodError) <==> c == CallQuit
    ensures r == Raises(ArgumentError) <==> arg.None? && (c == CallAddBreakpoint || c == SafeEvalAndPrint)
  {
    match c
    case CallNext => BreakLoop
    case CallStep => BreakLoop
    case CallContinue => BreakLoop
    case CallQuit => Raises(NoMethodError)
    case CallAddBreakpoint => if arg.None? then Raises(ArgumentError) else OtherResult
    case SafeEvalAndPrint => if arg.None? then Raises(ArgumentError) else OtherResult
    case _ => OtherResult
  }

  /** `COMMANDS` holds every alias of `COMMAND_ALIASES`, and nothing else, with its handler. */
  ghost predicate CommandTable(commands: map<string, Command>) {
    forall w :: (w in commands <==> Lookup(w).Some?) && (w in commands ==> commands[w] == Lookup(w).value)
  }

  /**
   * Dispatching a bare alias through `handle_command_line` with the handlers
   * here. The alias's handler is sent no argument. The movement commands end
   * the loop (`false`). A bare `b` or `p` raises `ArgumentError` and `q`
   * raises `NoMethodError`. Every other command returns `nil`.
   */
  lemma DispatchAlias(c: Command, alias: string, commands: map<string, Command>)
    requires CommandTable(commands)
    requires alias in Aliases(c)
    ensures var h := HandleCommandLine(alias, commands, HandlerResultOf);
      && h.dispatch == Send(c, None)
      && (h.Raised? <==> c == CallQuit || c == CallAddBreakpoint || c == SafeEvalAndPrint)
      && (h.Raised? ==> h.error == if c == CallQuit then NoMethodError else ArgumentError)
      && (h.Handled? ==> (h.value == RFalse <==> c == CallNext || c == CallStep || c == CallContinue))
      && (h.Handled? && h.value != RFalse ==> h.value == RNil)
  {
    AliasesParseAsWords(c, alias);
    LookupExact(alias, c);
  }

  /**
   * An alias, a space and an argument: the handler is sent that argument.
   * Only `q` raises; the movement commands return `false` and the rest `nil`.
   */
  lemma DispatchWithArgument(c: Command, alias: string, arg: string, commands: map<string, Command>)
    requires CommandTable(commands)
    requires alias in Aliases(c)
    requires arg != [] && !IsSpace(arg[0]) && !IsStripChar(arg[|arg| - 1])
    ensures var h := HandleCommandLine(alias + " " + arg, commands, HandlerResultOf);
      && h.dispatch == Send(c, Some(arg))
      && (h.Raised? <==> c == CallQuit)
      && (h.Handled? ==> (h.value == RFalse <==> c == CallNext || c == CallStep || c == CallContinue))
      && (h.Handled? && h.value != RFalse ==> h.value == RNil)
  {
    AliasesAreWords(c, alias);
    ParseCommandAndArgument(alias, arg);
    LookupExact(alias, c);
  }

  /** A word that is no alias is reported as unknown and the loop goes on. */
  lemma DispatchUnknown(word: string, commands: map<string, Command>)
    requires CommandTable(commands)
    requires word != [] && NoSpace(word) && word[0] != '\0' && word[|word| - 1] != '\0'
    requires Lookup(word).None?
    ensures HandleCommandLine(word, commands, HandlerResultOf) == Handled(Unknown(word), RNil)
  {
    ParseSingleWord(word);
  }

  /** The handlers object: the engine, the paused trace point and the optional registry. */
  class ReplCommands {
    const engine: Engine
    /** `@tp.path` */
    const tpPath: string
    /** `@tp.binding` */
    const tpBinding: Binding
    /** `@bp_manager`, possibly `nil` */
    const manager: BreakpointManager?

    constructor (engine: Engine, tpPath: string, tpBinding: Binding, manager: BreakpointManager?)
      ensures this.engine == engine && this.tpPath == tpPath && this.tpBinding == tpBinding
      ensures this.manager == manager
    {
      this.engine := engine;
      this.tpPath := tpPath;
      this.tpBinding := tpBinding;
      this.manager := manager;
    }

    /** `call_next`: `next!`, then `:break_loop`. */
    method CallNext() returns (r: HandlerResult)
      modifies engine
      ensures r == BreakLoop
      ensures engine.State() == ApplyDirective(old(engine.State()), StepOver)
    {
      engine.DoNext();
      r := BreakLoop;
    }

    /** `call_step`: `step!`, then `:break_loop`. */
    method CallStep() returns (r: HandlerResult)
      modifies engine
      ensures r == BreakLoop
      ensures engine.State() == ApplyDirective(old(engine.State()), StepIn)
    {
      engine.DoStep();
      r := BreakLoop;
    }

    /** `call_continue`: `continue!`, then `:break_loop`. */
    method CallContinue() returns (r: HandlerResult)
      modifies engine
      ensures r == BreakLoop
      ensures engine.State() == ApplyDirective(old(engine.State()), Resume)
    {
      engine.DoContinue();
      r := BreakLoop;
    }

    /**
     * `call_add_breakpoint(arg)`: prints `out`; the registry, when there is
     * one, becomes what `AddBreakpointSpec` says, and it is untouched on the
     * usage path.
     */
    method CallAddBreakpoint(arg: Option<string>) returns (out: string)
      modifies manager
      ensures manager == null ==> out == AddBreakpointSpec(arg, None, tpPath, tpBinding, id => id).0
      ensures manager != null ==>
        (out, Some(manager.State())) == AddBreakpointSpec(arg, Some(old(manager.State())), tpPath, tpBinding, manager.expandPath)
    {
      if Blank(arg) {
        return USAGE;
      }
      if manager == null {
        return UNAVAILABLE;
      }
      var _ := manager.Add(arg.value, tpPath, tpBinding);
      var bps := manager.List();
      var b := bps[|bps| - 1];
      out := AddedMessage(b.View());
    }

    /** `list_breakpoints`: the lines it prints; it changes nothing. */
    method ListBreakpoints() returns (lines: seq<string>)
      ensures manager == null ==> lines == [UNAVAILABLE]
      ensures manager != null ==> lines == ListingLines(manager.State().entries)
    {
      if manager == null {
        return [UNAVAILABLE];
      }
      lines := Listing(manager);
    }
  }
}
