/**
 * Dispatch of one operator line (lib/debugr/cmd_helpers.rb): a blank line is
 * skipped, a known command word is sent to its handler, with the argument only
 * when there is one, and an unknown word is reported.
 */
module CommandLine {
  import opened Wrappers
  import opened RubyText
  import opened Constants
  import opened CmdHelpers

  /** The exceptions a handler call can raise here. */
  datatype RubyError = ArgumentError | NoMethodError

  /** What a handler returned, as far as the dispatcher looks at it, or the exception it raised. */
  datatype HandlerResult = BreakLoop | OtherResult | Raises(error: RubyError)

  /** What `handle_command_line` did with the line. */
  datatype Dispatch =
    | Nothing
    | Send(handler: Command, arg: Option<string>)
    | Unknown(cmd: string)

  /**
   * The action taken and the value returned (`true`, `false` or `nil`), or the
   * exception of the handler, which `handle_command_line` does not rescue.
   */
  datatype Handled =
    | Handled(dispatch: Dispatch, value: RValue)
    | Raised(dispatch: Dispatch, error: RubyError)

  /**
   * `handle_command_line(line)`: `commands` is the table `COMMANDS` of handler
   * names by command word, and `result` what the handler returns when called.
   * The line is blank: `true`. A known command whose handler returns
   * `:break_loop`: `false`. A handler that raises: its exception. Any other
   * known command, or an unknown word: `nil`.
   */
  function HandleCommandLine(line: string, commands: map<string, Command>,
                             result: (Command, Option<string>) -> HandlerResult): (r: Handled)
    ensures r.dispatch == Nothing <==> Strip(line) == []
    ensures r.Handled? && r.value == RTrue <==> Strip(line) == []
    ensures r.Raised? <==> r.dispatch.Send? && result(r.dispatch.handler, r.dispatch.arg).Raises?
    ensures r.Raised? ==> result(r.dispatch.handler, r.dispatch.arg) == Raises(r.error)
    ensures r.Handled? && r.value == RFalse <==> r.dispatch.Send? && result(r.dispatch.handler, r.dispatch.arg) == BreakLoop
    ensures r.dispatch.Send? && result(r.dispatch.handler, r.dispatch.arg) == OtherResult ==> r == Handled(r.dispatch, RNil)
    ensures Strip(line) != [] ==>
      var (cmd, arg) := ParseCommandLine(line);
      if cmd.value in commands then r.dispatch == Send(commands[cmd.value], arg)
      else r == Handled(Unknown(cmd.value), RNil)
  {
    if Strip(line) == [] then Handled(Nothing, RTrue)
    else
      var (cmd, arg) := ParseCommandLine(line);
      if cmd.value in commands then
        var handler := commands[cmd.value];
        match result(handler, arg)
        case BreakLoop => Handled(Send(handler, arg), RFalse)
        case OtherResult => Handled(Send(handler, arg), RNil)
        case Raises(error) => Raised(Send(handler, arg), error)
      else
        Handled(Unknown(cmd.value), RNil)
  }
}
