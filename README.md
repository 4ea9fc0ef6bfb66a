# debugr — a Dafny model of the tracer core

debugr is a small Ruby debugger. A trace hook sees every `:line`, `:call` and
`:return` event of the target script. The engine counts the call depth and,
at each line, decides whether to pause: a matching enabled breakpoint, step
mode, or next mode once the depth is back at the target. The engine's
pause prints where it stopped, waits for one line and sets the engine running
again. Separately, the repository has an operator loop (the REPL) that reads
command lines. A movement command (`next`, `step`, `continue`) gives the
engine its new mode and returns. `quit` ends the process, and every other
command (evaluate, locals, backtrace, add or list breakpoints, help) is acted
on before the loop reads again. According to the comment at
lib/debugr/engine.rb:8, a pause should run this loop, but no file starts it. Breakpoints live in
a manager that numbers them 1, 2, … in the order they are added.

The model has one module per source file:

| module | file | form |
|---|---|---|
| `Wrappers` | — | `Option` |
| `RubyText` | — | the Ruby `String` methods the core relies on: `strip`, `split(' ', 2)`, `split(':', 2)`, `to_i`, `to_s`, `downcase`, `chomp`, `ljust`, `join` |
| `EngineHelpers` | lib/debugr/utils/engine_helpers.rb | functions |
| `Constants` | lib/debugr/constants.rb | a closed `Command` type, the alias table and its lookup, `HELP_COMMANDS` |
| `TerminalColors` | lib/debugr/utils/terminal_colors.rb | functions |
| `CmdHelpers` | lib/debugr/utils/cmd_helpers.rb | functions (the tokenizer, the help text, `read_input`'s clean-up) |
| `CommandLine` | lib/debugr/cmd_helpers.rb | `handle_command_line` as a function |
| `Breakpoints` | lib/debugr/breakpoint.rb, lib/debugr/breakpoints.rb | classes `Breakpoint` and `BreakpointManager`, proved against the value-level registry `Registry`/`AddSpec`/`AnyMatch` |
| `TracerEngine` | lib/debugr/engine.rb | class `Engine`, proved against the value-level `Classify`/`Run` |
| `ReplCommands` | lib/debugr/utils/repl_commands.rb | class `ReplCommands` plus the listing and add specifications |
| `Repl` | lib/debugr/repl.rb | class `Repl` whose `Run`/`Start` loop is proved against `ReplRun` |

Some things are outside the model and enter as parameters:

- `File.expand_path` and `File.dirname` are parameters of type `string -> string`. Where a property needs `expand_path` to be idempotent, that is a precondition (`Breakpoints.Idempotent`).
- A trace point's `binding` is the token `Binding`, which names the frame and is compared only by equality. Ruby compares `Binding` objects by identity, and `tp.binding` builds a new one on each call. That behaviour is modelled separately, as `Breakpoints.BindingObject` (see Findings).
- `tp.path` is a string parameter.
- Whether Readline is available is a boolean parameter.
- A handler's return value is a function parameter.
- The REPL's input is the sequence of lines `read_input` returns. The end of that sequence is the `nil` that ends the loop.

The tests and the code disagree in three places, and the engine and its
header comment in a fourth. The model follows the code in each:

- The engine reaches the breakpoints through `@session.breakpoints` (lib/debugr/engine.rb:32), while the engine tests use `bp_manager`. `Engine` holds its `BreakpointManager` directly.
- The trace block in lib/debugr/engine.rb:27-50 applies no path filter. `Engine.HandleEvent` follows it. The filter `should_process_path?` exists only in the tests, and is rebuilt as a separate function (`TracerEngine.ShouldProcessPath`) from the helpers and from what spec/engine_spec.rb:13-36 requires.
- `step!`, `next!` and `continue!` are not in lib/debugr/engine.rb. They are rebuilt from the tests:
  - `step!` sets step mode;
  - `next!` sets next mode with the target at the current depth;
  - `continue!` sets running mode and leaves the target as it was.
- `pause` (lib/debugr/engine.rb:63-69) prints, waits on `gets` and sets running mode. It never builds a `Debugr::REPL`, although the comment at lib/debugr/engine.rb:8 says a pause runs one. `Engine.Pause` follows the code, and `Repl.Repl.Start` is modelled on its own, as what a caller that builds the REPL gets.

## Model

| member | source | states |
|---|---|---|
| `RubyText.Strip` | lib/debugr/utils/cmd_helpers.rb:15 | the stripped line neither starts nor ends with whitespace or NUL, and it is empty exactly when the line is nothing but those |
| `RubyText.StripIdempotent` | lib/debugr/cmd_helpers.rb:14-16 | stripping an already stripped line changes nothing, so `parse_command_line` sees the same text `handle_command_line` tested |
| `RubyText.SplitWord` | lib/debugr/utils/cmd_helpers.rb:15 | `split(' ', 2)` gives at most two fields. It gives none exactly when the text is only whitespace. The first field is non-empty, free of whitespace and a prefix of the text. A lone field is the whole text after leading whitespace |
| `RubyText.SplitWordTwoFields` | lib/debugr/utils/cmd_helpers.rb:15 | with two fields, the first is a prefix and the second a suffix. Only whitespace lies between them, and the second does not start with whitespace |
| `RubyText.IndexOf` | lib/debugr/breakpoints.rb:35 | the position found holds the character and no earlier position does (the first colon) |
| `RubyText.IntToString` | lib/debugr/utils/repl_commands.rb:41 | an integer's decimal text is non-empty and made only of digits and `-` |
| `RubyText.ToI` | lib/debugr/breakpoints.rb:36-39 | `String#to_i`: optional leading whitespace, a sign and the leading decimal digits. Its lemmas state that it reads back every integer's text followed by a non-digit (`ToIOfIntToString`), and that it gives 0 for text that does not start like a number (`ToINonNumeric`) |
| `RubyText.ToIOfIntToString` | lib/debugr/breakpoints.rb:36 | `to_i` of an integer's decimal text, followed by anything but a digit, gives the integer back |
| `RubyText.ToINonNumeric` | lib/debugr/breakpoints.rb:36-39 | text that does not start with whitespace, a digit or a sign converts to 0; nothing is raised |
| `RubyText.Downcase` | lib/debugr/utils/cmd_helpers.rb:45 | the length is kept, no upper-case letter is left, and every other character is unchanged |
| `RubyText.Chomp` | lib/debugr/utils/cmd_helpers.rb:44 | exactly one trailing `\r\n`, `\n` or `\r` is removed, and the result is a prefix of the text |
| `RubyText.Ljust` | lib/debugr/utils/cmd_helpers.rb:26 | the text is padded with spaces on the right up to the width and is never cut |
| `RubyText.SplitAllOfJoin` | lib/debugr/utils/cmd_helpers.rb:25-27 | lines that do not contain the separator come back unchanged when their join is split at the separator |
| `EngineHelpers.AbsolutePathNotInternal` | lib/debugr/utils/engine_helpers.rb:3-9 | an absolute path is neither internal nor rejected by `empty_or_internal?` |
| `EngineHelpers.PathInternal` | lib/debugr/utils/engine_helpers.rb:3-5 | `path_internal?`: the path starts with `<internal:`. Its lemmas state that every such path is internal and that an absolute path is not |
| `EngineHelpers.EmptyOrInternal` | lib/debugr/utils/engine_helpers.rb:7-9 | `empty_or_internal?`: no path, or an internal one. Its lemmas state that an absolute path is never rejected and an `<internal:` path always is |
| `EngineHelpers.InternalPrefixIsInternal` | lib/debugr/utils/engine_helpers.rb:3-9 | every path starting with `<internal:` is internal and is rejected by `empty_or_internal?` |
| `EngineHelpers.AddTrailingSlash` | lib/debugr/utils/engine_helpers.rb:11-13 | the result ends in `/`, extends the path by at most one character, and equals the path exactly when the path already ends in `/` |
| `EngineHelpers.AddTrailingSlashIdempotent` | lib/debugr/utils/engine_helpers.rb:11-13 | adding the slash twice is the same as adding it once |
| `EngineHelpers.TargetDirAndScript` | lib/debugr/utils/engine_helpers.rb:15-18 | the script comes back unchanged. The directory is the script's `dirname` with at most a `/` added, and it ends in `/` |
| `EngineHelpers.ScriptOrWithinScriptDir` | lib/debugr/utils/engine_helpers.rb:20-22 | the result is never `false`. It is truthy exactly when the path is the script or starts with the directory, and `nil` otherwise |
| `EngineHelpers.WithinDebuggerDir` | lib/debugr/utils/engine_helpers.rb:24-27 | a path is inside the debugger directory exactly when it starts with the directory followed by `/` |
| `EngineHelpers.SiblingNotWithinDebuggerDir` | lib/debugr/utils/engine_helpers.rb:24-27 | a sibling sharing only a name prefix (`…/debugr_x/f.rb` against `…/debugr`) is not inside |
| `EngineHelpers.JoinedWithinDebuggerDir` | lib/debugr/utils/engine_helpers.rb:24-27 | a file joined under the directory is inside it |
| `Constants.CommandOrderComplete` | lib/debugr/constants.rb:3-14 | the command order lists every command of the table |
| `Constants.FindIn` | lib/debugr/constants.rb:3-14 | a command is found exactly when some listed command has the alias, and the command found has it |
| `Constants.Lookup` | lib/debugr/constants.rb:3-14 | a found command has the alias. When nothing is found, no command has it |
| `Constants.AliasesDisjoint` | lib/debugr/constants.rb:3-14 | no alias belongs to two different commands |
| `Constants.LookupExact` | lib/debugr/constants.rb:3-14 | looking an alias up gives a command exactly when the alias is one of that command's |
| `Constants.LookupMovementAliases` | lib/debugr/constants.rb:4-7 | `n`/`next`, `s`/`step`, `c`/`continue` and `q`/`quit` map to next, step, continue and quit |
| `Constants.LookupInspectionAliases` | lib/debugr/constants.rb:11-12 | `where`, `bt` and `backtrace` map to the backtrace. `breaks`, `breakpoints`, `lb` and `list` map to the listing |
| `Constants.HelpCommandsShape` | lib/debugr/constants.rb:16-28 | the help table has 11 entries with distinct labels, each at most 18 characters long |
| `TerminalColors.Colorize` | lib/debugr/utils/terminal_colors.rb:16-19 | an integer colour is used as the code unchanged. A name is looked up in `CODES`, and an unknown name is a `KeyError`. The text is wrapped as `ESC[<code>m … ESC[0m` |
| `TerminalColors.UnwrapWrap` | lib/debugr/utils/terminal_colors.rb:18 | the code and the unchanged text are read back from the wrapped string |
| `TerminalColors.UnwrapColorize` | lib/debugr/utils/terminal_colors.rb:17-18 | the output of a colouring carries the colour's code and the text unchanged |
| `TerminalColors.NameAndSymbolAgree` | lib/debugr/utils/terminal_colors.rb:17 | a string and a symbol of the same name give the same output |
| `TerminalColors.CodesNamed` | lib/debugr/utils/terminal_colors.rb:5-13 | each colour name's code lies in 31..37 and is named by that colour alone |
| `TerminalColors.CodesDistinct` | lib/debugr/utils/terminal_colors.rb:5-13 | different names have different codes, all in 31..37 |
| `CmdHelpers.ParseCommandLine` | lib/debugr/utils/cmd_helpers.rb:14-17 | there is no command exactly when the line is blank, and then no argument. The command is non-empty, free of whitespace and starts the stripped line. Without an argument, the command is the whole stripped line |
| `CmdHelpers.ParseArgument` | lib/debugr/utils/cmd_helpers.rb:14-17 | an argument is the rest of the stripped line after the command and the whitespace that follows it. It neither starts nor ends with whitespace |
| `CmdHelpers.ParseEvalExample` | lib/debugr/utils/cmd_helpers.rb:14-17 | `"p 1 + 1"` parses as `p` with argument `1 + 1` |
| `CmdHelpers.ParseSingleWord` | lib/debugr/utils/cmd_helpers.rb:14-17 | a single word parses as that word with no argument |
| `CmdHelpers.ParseCommandAndArgument` | lib/debugr/utils/cmd_helpers.rb:14-17 | a word, a space and a stripped argument parse back into exactly that word and argument |
| `CmdHelpers.AliasesParseAsWords` | lib/debugr/constants.rb:3-14 | every alias is non-empty, has no whitespace, and parses as itself with no argument |
| `CmdHelpers.AliasesAreWords` | lib/debugr/constants.rb:3-14 | every alias is a word that `strip` leaves whole |
| `CmdHelpers.HelpLines` | lib/debugr/utils/cmd_helpers.rb:25-27 | there is one help line per `HELP_COMMANDS` entry, in table order |
| `CmdHelpers.HelpLine` | lib/debugr/utils/cmd_helpers.rb:26 | one help line. `HelpLineLayout` states its layout column by column |
| `CmdHelpers.HelpBody` | lib/debugr/utils/cmd_helpers.rb:25-27 | the help lines joined with newlines. Only the definition states this; see Left out |
| `CmdHelpers.HelpText` | lib/debugr/utils/cmd_helpers.rb:29-32 | the heading `Commands:`, the body and a final newline |
| `CmdHelpers.HelpLineLayout` | lib/debugr/utils/cmd_helpers.rb:26 | a help line is four spaces, the label padded with spaces to column 22, then ` - ` and the description |
| `CmdHelpers.ReadInput` | lib/debugr/utils/cmd_helpers.rb:36-46 | end of input gives `nil`. A line gives its chomped, lower-cased text |
| `CmdHelpers.ReadInputLowercase` | lib/debugr/utils/cmd_helpers.rb:36-46 | a line read contains no upper-case letter |
| `CmdHelpers.ReadInputSingleLine` | lib/debugr/utils/cmd_helpers.rb:36-46 | a line whose only newline is its last character comes back without any newline |
| `CmdHelpers.ChompDowncase` | lib/debugr/utils/cmd_helpers.rb:38-45 | chomping and lower-casing can be done in either order |
| `CmdHelpers.ReadInputBranchesAgree` | lib/debugr/utils/cmd_helpers.rb:37-45 | the Readline branch lower-cases twice, yet gives the same line as the `gets` branch |
| `CommandLine.HandleCommandLine` | lib/debugr/cmd_helpers.rb:13-24 | a blank line returns `true` and dispatches nothing. A known word is sent to its handler, with an argument exactly when one was parsed. The call raises exactly when that handler raises, and with the handler's error. The result is `false` exactly when that handler returned `:break_loop`, and an unknown word is reported. Every other case returns `nil` |
| `Breakpoints.Breakpoint.constructor` | lib/debugr/breakpoint.rb:8-14 | a new breakpoint holds the given id, file, line and binding, and is enabled |
| `Breakpoints.Breakpoint.Enable` | lib/debugr/breakpoint.rb:16-18 | `enabled` becomes true, and nothing else changes |
| `Breakpoints.Breakpoint.Disable` | lib/debugr/breakpoint.rb:20-22 | `enabled` becomes false, and nothing else changes |
| `Breakpoints.DisableThenEnable` | lib/debugr/breakpoint.rb:13-22 | disabling then enabling leaves the breakpoint enabled, and restores an enabled breakpoint exactly |
| `Breakpoints.DetermineFileAndLine` | lib/debugr/breakpoints.rb:33-41 | with a colon, the result is the expanded text before the first colon and `to_i` of all after it. Without one, it is `tp.path` and `to_i` of the argument |
| `Breakpoints.LocationWithFile` | lib/debugr/breakpoints.rb:34-36 | `file:n`, followed by anything but a digit, gives the expanded file and line `n` |
| `Breakpoints.LocationWithoutFile` | lib/debugr/breakpoints.rb:37-39 | a bare number `n` gives the current path and line `n` |
| `Breakpoints.NonNumericLine` | lib/debugr/breakpoints.rb:35-36 | a non-numeric line part gives line 0 |
| `Breakpoints.AddSpec` | lib/debugr/breakpoints.rb:14-19 | adding grows the list by exactly one, keeps the earlier entries in order, and raises `next_id` by one |
| `Breakpoints.AddKeepsNumbering` | lib/debugr/breakpoints.rb:17-18 | when the ids so far are 1..n and `next_id` is n+1, that stays so after an add, and the new entry's id is n+1 |
| `Breakpoints.AddAllKeepsNumbering` | lib/debugr/breakpoints.rb:14-19 | a sequence of adds keeps the numbering and adds one entry per call |
| `Breakpoints.IdsFollowCallOrder` | lib/debugr/breakpoints.rb:9-19 | from a fresh manager, the i-th add gets id i. `next_id` is one past the last id, so it exceeds every id |
| `Breakpoints.AnyMatch` | lib/debugr/breakpoints.rb:25-29 | a match exists exactly when some entry is enabled and has that file, line and binding |
| `Breakpoints.Matches` | lib/debugr/breakpoints.rb:27 | the block of `match?` for one breakpoint: enabled, and the same file, line and binding. `AnyMatch` and `DisablingCannotAddMatch` state what follows from it |
| `Breakpoints.DisablingCannotAddMatch` | lib/debugr/breakpoints.rb:25-29 | disabling an entry never creates a match. If every match disappears, the disabled entry was the only one matching |
| `Breakpoints.AddedBreakpointMatches` | lib/debugr/breakpoints.rb:14-29 | after adding `file:n`, a line event at the expanded file, line `n` and the same frame matches |
| `Breakpoints.ObjectAt` | lib/debugr/breakpoints.rb:15 | `tp.binding` gives no object exactly when the frame has no binding |
| `Breakpoints.AnyMatchAsWritten` | lib/debugr/breakpoints.rb:25-29 | with bindings compared as objects, a match exists exactly when some entry is enabled, has that file and line, and holds the very object the event passes |
| `Breakpoints.AsWrittenMatchIsFrameMatch` | lib/debugr/breakpoints.rb:25-29 | every match on objects is a match on frames. With no binding, the two agree |
| `Breakpoints.AsWrittenMissesLaterCalls` | lib/debugr/engine.rb:32 | when the event's binding object is built after every stored one, nothing matches an event that has a binding |
| `Breakpoints.AsWrittenAddedBreakpointNeverFires` | lib/debugr/breakpoints.rb:14-29 | the breakpoint that matches on frames never matches on objects at a later line event |
| `Breakpoints.BreakpointManager.constructor` | lib/debugr/breakpoints.rb:9-12 | a fresh manager has no breakpoints and `next_id` 1 |
| `Breakpoints.BreakpointManager.Add` | lib/debugr/breakpoints.rb:14-19 | the registry becomes `AddSpec` of the old one. The earlier breakpoint objects stay in place, one fresh object is appended, and the new `next_id` is returned |
| `Breakpoints.BreakpointManager.List` | lib/debugr/breakpoints.rb:21-23 | the breakpoints listed are exactly the registry's entries, in order, and the manager is not changed |
| `Breakpoints.BreakpointManager.Match` | lib/debugr/breakpoints.rb:25-29 | true exactly when some enabled breakpoint has the expanded file, the line and the binding. The answer agrees with the registry's `AnyMatch`, and the manager is not changed |
| `TracerEngine.AfterPause` | lib/debugr/engine.rb:63-69 | after a pause the mode is running, and the depth and target are unchanged |
| `TracerEngine.Classify` | lib/debugr/engine.rb:27-50 | a call adds one to the depth and a return takes one off; neither pauses. A line never changes the depth or the target. It pauses exactly on a breakpoint match, in step mode, or in next mode with a target set and depth ≤ target |
| `TracerEngine.Run` | lib/debugr/engine.rb:27-50 | the trace block over a sequence of events gives one pause flag per event. What it computes is stated by `RunTracksDepth`, `RunningWithoutHitsNeverPauses`, `StepPausesAtNextLine`, `NextPausesAtShallowLine` and `BreakpointPausesInEveryMode` |
| `TracerEngine.ApplyDirective` | spec/engine_handle_event_spec.rb:38-71 | step sets step mode. Next sets next mode with the target at the current depth. Continue sets running mode. None of them changes the depth |
| `TracerEngine.DepthCountsCallsAndReturns` | lib/debugr/engine.rb:43-48 | the depth after any events is the starting depth plus the calls minus the returns, and it may become negative |
| `TracerEngine.RunTracksDepth` | lib/debugr/engine.rb:27-50 | over any run, the depth follows the calls and returns, the target never changes, and call and return events never pause |
| `TracerEngine.RunningWithoutHitsNeverPauses` | lib/debugr/engine.rb:29-42 | in running mode with no matching breakpoint, no event pauses and the mode stays running |
| `TracerEngine.StepPausesAtNextLine` | lib/debugr/engine.rb:35-36 | in step mode, the first line event pauses, whatever calls and returns came before it |
| `TracerEngine.NextPausesAtShallowLine` | lib/debugr/engine.rb:38-41 | in next mode without breakpoint hits, the first line at depth ≤ target is where the run pauses, and no earlier event pauses |
| `TracerEngine.BreakpointPausesInEveryMode` | lib/debugr/engine.rb:30-33 | a line that matches a breakpoint pauses in every mode |
| `TracerEngine.NextScenario` | spec/engine_handle_event_spec.rb:56-71 | after `next!` at depth 0, the line after a call does not pause and the line after the matching return does |
| `TracerEngine.DepthScenario` | spec/engine_handle_event_spec.rb:20-35 | from a new engine, one call gives depth 1 and one return gives depth -1 |
| `TracerEngine.ShouldProcessPath` | spec/engine_spec.rb:13-36 | a path is accepted exactly when it is present, is not internal, does not start with the debugger directory plus `/`, and is the script or starts with the script's directory plus `/` |
| `TracerEngine.RejectsScriptDirSibling` | spec/engine_spec.rb:13-36 | a path that only extends the script directory's name, without a `/`, is rejected unless it is the script |
| `TracerEngine.RejectsNilPath` | spec/engine_spec.rb:14-16 | a missing path is rejected |
| `TracerEngine.RejectsInternalPath` | spec/engine_spec.rb:18-20 | an `<internal:…>` path is rejected |
| `TracerEngine.RejectsDebuggerFile` | spec/engine_spec.rb:22-25 | a file under the debugger's own directory is rejected |
| `TracerEngine.AcceptsPathInTargetDir` | spec/engine_spec.rb:27-30 | an absolute file under the script's directory is accepted, unless it is in the debugger directory |
| `TracerEngine.AcceptsScript` | spec/engine_spec.rb:32-35 | the absolute script path itself is accepted, unless it is in the debugger directory |
| `TracerEngine.Engine.constructor` | lib/debugr/engine.rb:15-23 | a new engine is running at depth 0 with no target |
| `TracerEngine.Engine.HandleEvent` | lib/debugr/engine.rb:27-50 | the new state and the pause flag are those `Classify` gives, with the hit taken from the manager's `match?` on line events |
| `TracerEngine.Engine.Hit` | lib/debugr/engine.rb:30-32 | `@session.breakpoints.match?` on the expanded event path. `Engine.HandleEvent` states that this is the hit `Classify` is given on a line event |
| `TracerEngine.Engine.Pause` | lib/debugr/engine.rb:63-69 | the state after a pause is `AfterPause` of the old one |
| `TracerEngine.Engine.DoStep` | spec/engine_handle_event_spec.rb:38-48 | the state becomes the step directive applied to the old one |
| `TracerEngine.Engine.DoNext` | spec/engine_handle_event_spec.rb:51-71 | the state becomes the next directive applied to the old one |
| `TracerEngine.Engine.DoContinue` | spec/support/engine_helpers.rb:11 | the state becomes the continue directive applied to the old one |
| `TracerEngine.SingleBreakpointRegistry` | spec/engine_handle_event_spec.rb:74-89 | a registry holding `script:99` matches line 99 and not line 101 |
| `TracerEngine.BreakpointScenario` | spec/engine_handle_event_spec.rb:74-89 | with a real manager and engine holding `script:99`, a line event at 99 pauses and one at 101 does not |
| `ReplCommands.AddBreakpointSpec` | lib/debugr/utils/repl_commands.rb:33-42 | a blank argument gives the usage text and leaves the registry. With no manager, the result is the not-available text. Otherwise exactly one breakpoint is added, and the message names the last entry |
| `ReplCommands.AddBreakpointReport` | lib/debugr/utils/repl_commands.rb:38-41 | adding `file:n` reports `Breakpoint #<n+1> set at <expanded file>:<n>` and keeps the numbering |
| `ReplCommands.ListingLines` | lib/debugr/utils/repl_commands.rb:73-80 | an empty list gives the single line `(no breakpoints)`. Otherwise there is one formatted line per breakpoint, in list order |
| `ReplCommands.NoticeIffEmpty` | lib/debugr/utils/repl_commands.rb:74-75 | `(no breakpoints)` is printed exactly when the list is empty |
| `ReplCommands.DisabledMarker` | lib/debugr/utils/repl_commands.rb:78 | a line ends in `(disabled)` exactly when its breakpoint is disabled. An enabled one ends in a space |
| `ReplCommands.FormatEntry` | lib/debugr/utils/repl_commands.rb:78 | one listing line. `FormatEntryId` states that its id reads back, and `DisabledMarker` that `(disabled)` appears exactly on disabled entries |
| `ReplCommands.AddedMessage` | lib/debugr/utils/repl_commands.rb:41 | the report of an added breakpoint. `AddBreakpointReport` states that after `b file:n` it names id n+1 of a registry of n, the expanded file and line n |
| `ReplCommands.FormatEntryId` | lib/debugr/utils/repl_commands.rb:78 | a listing line starts with the breakpoint's id: `to_i` of the line gives it back |
| `ReplCommands.Listing` | lib/debugr/utils/repl_commands.rb:73-80 | the loop over the breakpoints prints exactly `ListingLines` of the manager's entries |
| `ReplCommands.HandlerResultOf` | lib/debugr/utils/repl_commands.rb:12-50 | exactly the movement handlers return `:break_loop`. The quit alias raises `NoMethodError`, because no method `call_quit` exists. `b` and `p` with no argument raise `ArgumentError`, because their argument is required |
| `ReplCommands.DispatchAlias` | lib/debugr/cmd_helpers.rb:18-20 | every alias on its own is dispatched to its command with no argument. It raises exactly for quit (`NoMethodError`) and for add-breakpoint and eval (`ArgumentError`). Otherwise the result is `false` exactly for the movement commands, and `nil` for the rest |
| `ReplCommands.DispatchWithArgument` | lib/debugr/cmd_helpers.rb:16-20 | an alias followed by an argument is dispatched to its command with that argument. It raises exactly for quit, when evaluation is taken to return (see Left out). Otherwise the result is `false` exactly for the movement commands, and `nil` for the rest |
| `ReplCommands.DispatchUnknown` | lib/debugr/cmd_helpers.rb:21-23 | a word that is no alias is reported as unknown and returns `nil` |
| `ReplCommands.ReplCommands.constructor` | lib/debugr/utils/repl_commands.rb:6-10 | the commands hold the given engine, trace point and manager |
| `ReplCommands.ReplCommands.CallNext` | lib/debugr/utils/repl_commands.rb:17-20 | the command issues the next directive to the engine and returns `:break_loop` |
| `ReplCommands.ReplCommands.CallStep` | lib/debugr/utils/repl_commands.rb:22-25 | the command issues the step directive and returns `:break_loop` |
| `ReplCommands.ReplCommands.CallContinue` | lib/debugr/utils/repl_commands.rb:27-30 | the command issues the continue directive and returns `:break_loop` |
| `ReplCommands.ReplCommands.CallAddBreakpoint` | lib/debugr/utils/repl_commands.rb:33-42 | the message and the manager's new state are those of `AddBreakpointSpec` on the old state |
| `ReplCommands.ReplCommands.ListBreakpoints` | lib/debugr/utils/repl_commands.rb:70-81 | with no manager, the not-available text is printed. Otherwise the lines are the listing of the manager's entries |
| `Repl.WordAction` | lib/debugr/repl.rb:34-69 | every command word leads to an action, never to the blank-line skip |
| `Repl.ActionFor` | lib/debugr/repl.rb:31-34 | the line is skipped exactly when no command word was parsed |
| `Repl.Decide` | lib/debugr/repl.rb:31-69 | a line is skipped exactly when it is blank |
| `Repl.WordActionOfAlias` | lib/debugr/repl.rb:34-63 | each alias of the table selects its command's branch of the `case` |
| `Repl.WordActionOfNonAlias` | lib/debugr/repl.rb:64-67 | a word that is neither an alias nor `exit` is an unknown command |
| `Repl.WordActionAgreesWithAliases` | lib/debugr/repl.rb:34-68 | the `case` of `start` agrees with the alias table, with `exit` added as a quit word |
| `Repl.Perform` | lib/debugr/repl.rb:47-68 | only `b` changes the registry. With a manager and a non-blank argument, it adds exactly one breakpoint |
| `Repl.TurnOf` | lib/debugr/repl.rb:34-69 | a turn ends the loop exactly when its action is a movement command or quit. A turn that goes on leaves the engine alone |
| `Repl.ReplRun` | lib/debugr/repl.rb:27-70 | the engine ends up changed only when the loop ends on a movement command, and then it holds that command's directive |
| `Repl.EndOfInputLeavesEngine` | lib/debugr/repl.rb:29 | input with no movement or quit line ends at end of input with the engine unchanged |
| `Repl.ContinuesAfter` | lib/debugr/repl.rb:27-70 | a line that does not end the loop prints its outputs, and then the rest of the input runs on the updated registry |
| `Repl.BlankLineSkipped` | lib/debugr/repl.rb:65 | a blank line prints nothing and the loop goes on |
| `Repl.DecideAlias` | lib/debugr/repl.rb:31-34 | a line that is one alias selects that alias's command with no argument |
| `Repl.MovementEndsLoop` | lib/debugr/repl.rb:35-43 | `n`/`next`, `s`/`step` and `c`/`continue` give the engine their directive and end the loop with nothing printed, whatever lines follow |
| `Repl.MoveEndsRun` | lib/debugr/repl.rb:35-43 | a movement action ends the run with its directive applied |
| `Repl.DecideQuit` | lib/debugr/repl.rb:44 | `q`, `quit` and `exit` are quit lines |
| `Repl.QuitExits` | lib/debugr/repl.rb:44-46 | a quit line prints the exit notice and ends with status 0, leaving the engine alone |
| `Repl.UnknownKeepsLooping` | lib/debugr/repl.rb:64-67 | an unknown command is reported and the loop goes on |
| `Repl.OtherCommandsContinue` | lib/debugr/repl.rb:47-63 | of the table's commands, exactly the non-movement, non-quit ones keep the loop going, when evaluation is taken to return (see Left out) |
| `Repl.EvalWithoutCode` | lib/debugr/repl.rb:48-49 | `p`/`eval` without code prints `Usage: <cmd> <ruby_code>` and goes on |
| `Repl.DecideWithArgument` | lib/debugr/repl.rb:31-32 | an alias, a space and a stripped argument select that command with exactly that argument |
| `Repl.AddToFresh` | lib/debugr/utils/repl_commands.rb:38-41 | on a fresh manager, `b file:n` stores breakpoint 1 at the expanded file and line `n`, enabled, and reports it |
| `Repl.AddThenList` | lib/debugr/repl.rb:57-61 | adding `file:n` and then listing prints the added message and that one entry's line, and leaves a registry of exactly that entry |
| `Repl.ListLast` | lib/debugr/repl.rb:158-165 | listing a registry of one entry prints its formatted line |
| `Repl.BreakThenListLines` | lib/debugr/repl.rb:31-61 | the lines `b file:n` and `list` decide to add `file:n` and then to list |
| `Repl.BreakThenList` | lib/debugr/repl.rb:57-61 | the two lines print `Breakpoint #1 set at <file>:<n>` and then `1: <file>:<n> `, and the loop ends at end of input |
| `Repl.AddBreakpointAsWritten` | lib/debugr/repl.rb:125-150 | the as-written `add_breakpoint` handles blank arguments and a missing manager |
| `Repl.AsWrittenAddRaises` | lib/debugr/repl.rb:148 | with a manager and a non-blank argument, the as-written call fails on arity (3 given, 2 expected), where the corrected REPL adds a breakpoint |
| `Repl.Repl.constructor` | lib/debugr/repl.rb:11-19 | the REPL holds the given engine, trace point and manager |
| `Repl.Repl.PerformLine` | lib/debugr/repl.rb:47-68 | the outputs and the manager's new state are those `Perform` gives |
| `Repl.Repl.Direct` | lib/debugr/repl.rb:35-43 | the engine takes the directive, and the manager is not changed |
| `Repl.Repl.TakeTurn` | lib/debugr/repl.rb:34-69 | the outputs, the stop, and the new engine and manager states are those of `TurnOf` |
| `Repl.Repl.Run` | lib/debugr/repl.rb:27-70 | the loop over the lines ends with the outputs, the end, and the engine and manager states `ReplRun` gives |
| `Repl.Repl.Start` | lib/debugr/repl.rb:21-71 | `start` on the lines read gives what `ReplRun` gives on their decisions |

## Left out

- The TracePoint subscription (`TracePoint.new`, `enable`, `disable` and the `ensure` in lib/debugr/engine.rb:25-59) is a runtime hook. Events are the inputs of `Engine.HandleEvent`.
- Console output and input are left out: the `puts`/`gets` in `pause`, the `Paused at` header, the prompts, Readline and `$stdout.gets`, and `print_banner`. `read_input` is modelled only as the clean-up of a line already read.
- The `Readline` branch of lib/debugr/repl.rb:76-86 returns the line without `chomp`. The REPL takes its lines as already read.
- Evaluation, local variables and the backtrace (`binding.eval`, `local_variables`, `caller_locations` in lib/debugr/repl.rb:89-122 and lib/debugr/utils/repl_commands.rb:45-95) are Ruby reflection. They appear as the outputs `Evaluate`, `LocalsShown` and `BacktraceShown`, and the help as `HelpShown`.
- Repl.OtherCommandsContinue: assumes that evaluating the code of `p <code>` returns or raises a `StandardError`, which `safe_eval_and_print` rescues (lib/debugr/repl.rb:94, lib/debugr/utils/repl_commands.rb:50). Code that does not parse raises `SyntaxError`, a `ScriptError` that is not rescued. In the source that error ends `start` (lib/debugr/repl.rb:51) instead of letting the loop go on. `Repl.Perform` makes the same assumption in its `Eval` case.
- ReplCommands.DispatchWithArgument: under the same assumption, `p <code>` returns normally. In the source, code that does not parse makes `handle_command_line` raise `SyntaxError` (lib/debugr/cmd_helpers.rb:19). `ReplCommands.HandlerResultOf` gives `safe_eval_and_print` with an argument a result other than a raise for the same reason.
- The REPL's own `print_help` (lib/debugr/repl.rb:168-183) prints a fixed text that is not built from `HELP_COMMANDS`. That text is not modelled; `HelpShown` stands for it. `CmdHelpers.HelpText` is the text of lib/debugr/utils/cmd_helpers.rb:24-33, which the REPL does not use.
- The unknown-command message is the output `UnknownCommand(cmd)`. Its text, with the misspelling `Unknwon` and Ruby's `inspect` quoting, is not spelled out.
- `exit 0` is the loop end `Exited(0)`. `quit!` in lib/debugr/utils/repl_commands.rb:12-15 prints and exits the process and has no method here. The alias table names `call_quit`, not `quit!`, so `handle_command_line` never reaches it (`ReplCommands.HandlerResultOf`).
- lib/debugr/session.rb only wires the session together (`ARGV`, `load`, `Engine.new`). The two file_helpers.rb files only wrap `File.expand_path`, and copy `path_internal?` from engine_helpers.rb.
- lib/debugr/cmd_helpers.rb repeats `parse_command_line`, `print_help` and `read_input`. The first is modelled once, as `CmdHelpers.ParseCommandLine`; that file's `print_help` and `read_input` are left out.
- `color` in lib/debugr/utils/cmd_helpers.rb:52-54 only forwards to `TerminalColors.Colorize`.
- `to_i` reads optional leading whitespace, a sign and decimal digits. Underscores between digits are not modelled.
- `downcase` is modelled for ASCII letters only.
- The writers from `attr_accessor` (lib/debugr/breakpoint.rb:6) are never used by the core. `id`, `file`, `line` and `binding` are constants, and only `enabled` changes.
- `list` in Ruby returns the manager's own array, which a caller could then modify. `BreakpointManager.List` returns the sequence of breakpoint objects, so changes to that array through the caller are not modelled.
- `Repl.Repl.Start` decides every line before it runs any of them. Deciding a line is pure, so the outputs and states are the same as deciding each line when it is reached.
- `COMMANDS`, which lib/debugr/cmd_helpers.rb:18-19 reads, is defined in no file of the repository. It is taken to map every alias of `COMMAND_ALIASES` to its command's method name (`ReplCommands.CommandTable`), and `send` is taken to reach the methods of lib/debugr/utils/repl_commands.rb. For `help`, `send(:print_help, …)` is taken to reach `print_help(_arg = nil)` at lib/debugr/utils/cmd_helpers.rb:24, so `help <arg>` returns `nil` (`ReplCommands.HandlerResultOf`, `ReplCommands.DispatchWithArgument`). lib/debugr/cmd_helpers.rb:36 also defines a `print_help` with no parameter, and neither file requires the other. If `send` reached that one, `help <arg>` would raise `ArgumentError`.
- Breakpoints.AddedBreakpointMatches: compares bindings by the frame they stand for. Ruby compares `Binding` objects by identity, and `tp.binding` builds a new one on each call (see Findings).
- `TerminalColors.CodesDistinct` states that the codes are distinct and lie in 31..37, but not separately that the table has seven entries.
- `CmdHelpers.HelpBody`: no lemma states that splitting the body at its newlines gives back `HelpLines`. That needs every label and description of `HELP_COMMANDS` to be free of newlines, and that fact about the string literals costs the solver more than the resource limit allows. `RubyText.SplitAllOfJoin` states the general fact.
- `TracerEngine.Run` characterises only the length of its pause sequence. What it computes is stated by the lemmas about it, such as `RunTracksDepth` and `StepPausesAtNextLine`.

## Findings

| source | as written | input that shows it | evidently intended | confidence | as-written member | corrected member |
|---|---|---|---|---|---|---|
| lib/debugr/repl.rb:148 | `add_breakpoint` calls `bp_manager.add(file, line, binding)` with three arguments, but lib/debugr/breakpoints.rb:14 defines `add(arg, tp)` with two, so Ruby raises `ArgumentError` | the line `b foo.rb:3` while a breakpoint manager is present, once a caller builds and starts the REPL | pass the raw argument and the trace point, `add(arg, @tp)`, then report the appended entry, as lib/debugr/utils/repl_commands.rb:38-41 does | high; not executed | `Repl.AddBreakpointAsWritten` (shown by `Repl.AsWrittenAddRaises`) | `Repl.Perform` (proved by `Repl.AddThenList` and `Repl.BreakThenList`) |
| lib/debugr/breakpoints.rb:27 | `match?` compares the stored binding with `b.binding == binding`. `Binding` does not define `==`, so this is object identity, and `tp.binding` (lib/debugr/breakpoints.rb:15, lib/debugr/engine.rb:32) builds a new object on every call. A breakpoint set in a frame with a binding never matches a later line event | `b 3` at a pause, then `c`, with line 3 of the same file reached again in that frame | that a breakpoint pauses the engine. The only test of matching, spec/engine_handle_event_spec.rb:81, asks for a match on file and line, and it passes nil bindings on both sides. Comparing the frame the binding stands for is this model's reading of the binding as an equality token, not something the tests ask for | medium; not executed | `Breakpoints.AnyMatchAsWritten` (shown by `Breakpoints.AsWrittenAddedBreakpointNeverFires`) | `Breakpoints.AnyMatch` (proved by `Breakpoints.AddedBreakpointMatches`) |
