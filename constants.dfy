/**
 * The operator command vocabulary (lib/debugr/constants.rb): the alias table
 * `COMMAND_ALIASES`, read as a closed enumeration of commands with an alias
 * lookup, and the `HELP_COMMANDS` table shown by `help`.
 */
module Constants {
  import opened Wrappers

  /** The keys of `COMMAND_ALIASES`, each naming the handler it dispatches to. */
  datatype Command =
    | CallNext | CallStep | CallContinue | CallQuit | SafeEvalAndPrint
    | CallAddBreakpoint | ListLocals | ShowBacktrace | ListBreakpoints | PrintHelp

  /** The keys in the order the hash literal lists them. */
  const COMMAND_ORDER: seq<Command> := [
    CallNext, CallStep, CallContinue, CallQuit, SafeEvalAndPrint,
    CallAddBreakpoint, ListLocals, ShowBacktrace, ListBreakpoints, PrintHelp
  ]

  /** The value `COMMAND_ALIASES` holds for each key. */
  function Aliases(c: Command): seq<string> {
    match c
    case CallNext => ["n", "next"]
    case CallStep => ["s", "step"]
    case CallContinue => ["c", "continue"]
    case CallQuit => ["q", "quit"]
    case SafeEvalAndPrint => ["p", "eval"]
    case CallAddBreakpoint => ["b", "break"]
    case ListLocals => ["locals"]
    case ShowBacktrace => ["where", "bt", "backtrace"]
    case ListBreakpoints => ["breaks", "breakpoints", "lb", "list"]
    case PrintHelp => ["help", "?"]
  }

  lemma CommandOrderComplete(c: Command)
    ensures c in COMMAND_ORDER
  {
  }

  /** The first command of `order` that lists `alias`. */
  function FindIn(order: seq<Command>, alias: string): (r: Option<Command>)
    ensures r.Some? <==> exists i :: 0 <= i < |order| && alias in Aliases(order[i])
    ensures r.Some? ==> r.value in order && alias in Aliases(r.value)
  {
    if order == [] then None
    else if alias in Aliases(order[0]) then Some(order[0])
    else FindIn(order[1..], alias)
  }

  /** The command an alias stands for, or `None` for a word that is not an alias. */
  function Lookup(alias: string): (r: Option<Command>)
    ensures r.Some? ==> alias in Aliases(r.value)
    ensures r.None? ==> forall c :: alias !in Aliases(c)
  {
    var r := FindIn(COMMAND_ORDER, alias);
    assert r.None? ==> forall c :: alias !in Aliases(c) by {
      if r.None? {
        forall c ensures alias !in Aliases(c) {
          CommandOrderComplete(c);
          var i :| 0 <= i < |COMMAND_ORDER| && COMMAND_ORDER[i] == c;
        }
      }
    }
    r
  }

  /** No alias is listed under two commands. */
  lemma AliasesDisjoint(c1: Command, c2: Command, alias: string)
    requires alias in Aliases(c1) && alias in Aliases(c2)
    ensures c1 == c2
  {
  }

  /** Looking an alias up gives exactly the command that lists it. */
  lemma LookupExact(alias: string, c: Command)
    ensures Lookup(alias) == Some(c) <==> alias in Aliases(c)
  {
    if alias in Aliases(c) {
      AliasesDisjoint(Lookup(alias).value, c, alias);
    }
  }

  lemma LookupMovementAliases()
    ensures Lookup("n") == Some(CallNext) && Lookup("next") == Some(CallNext)
    ensures Lookup("s") == Some(CallStep) && Lookup("step") == Some(CallStep)
    ensures Lookup("c") == Some(CallContinue) && Lookup("continue") == Some(CallContinue)
    ensures Lookup("q") == Some(CallQuit) && Lookup("quit") == Some(CallQuit)
  {
    LookupExact("n", CallNext);
    LookupExact("next", CallNext);
    LookupExact("s", CallStep);
    LookupExact("step", CallStep);
    LookupExact("c", CallContinue);
    LookupExact("continue", CallContinue);
    LookupExact("q", CallQuit);
    LookupExact("quit", CallQuit);
  }

  lemma LookupInspectionAliases()
    ensures Lookup("where") == Some(ShowBacktrace) && Lookup("bt") == Some(ShowBacktrace)
    ensures Lookup("backtrace") == Some(ShowBacktrace)
    ensures Lookup("breaks") == Some(ListBreakpoints) && Lookup("breakpoints") == Some(ListBreakpoints)
    ensures Lookup("lb") == Some(ListBreakpoints) && Lookup("list") == Some(ListBreakpoints)
  {
    LookupExact("where", ShowBacktrace);
    LookupExact("bt", ShowBacktrace);
    LookupExact("backtrace", ShowBacktrace);
    LookupExact("breaks", ListBreakpoints);
    LookupExact("breakpoints", ListBreakpoints);
    LookupExact("lb", ListBreakpoints);
    LookupExact("list", ListBreakpoints);
  }

  /** `HELP_COMMANDS`: the label and description of each help line, in order. */
  const HELP_COMMANDS: seq<(string, string)> := [
    ("[n, next]", "step over (skip into deeper calls)"),
    ("[s, step]", "step in (pause at next line even inside calls)"),
    ("[c, continue]", "continue until next breakpoint or program ends"),
    ("[p <expr>]", "evaluate Ruby <expr> in current frame and print"),
    ("[eval <ruby>]", "alias for p"),
    ("[locals]", "show local variables in current frame"),
    ("[where, bt]", "display a short backtrace"),
    ("[b <file>:<line>]", "add breakpoint (if breakpoints manager implemented)"),
    ("[breaks, list]", "list breakpoints"),
    ("[q, quit]", "quit debugger and abort program"),
    ("[help, ?]", "show this helps")
  ]

  /** The help table has eleven rows with distinct labels, each at most 18 characters wide. */
  lemma HelpCommandsShape()
    ensures |HELP_COMMANDS| == 11
    ensures forall i, j :: 0 <= i < j < |HELP_COMMANDS| ==> HELP_COMMANDS[i].0 != HELP_COMMANDS[j].0
    ensures forall i :: 0 <= i < |HELP_COMMANDS| ==> |HELP_COMMANDS[i].0| <= 18
  {
  }
}
