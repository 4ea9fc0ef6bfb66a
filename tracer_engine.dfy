/**
 * The tracer engine (lib/debugr/engine.rb): per trace event it either tracks
 * the call depth or decides whether to pause at a line. The decision is first
 * given on values (`Classify`, and `Run` over a sequence of events); the
 * `Engine` class keeps the same three fields and is proved against it.
 *
 * Breakpoint lookup is the registry's `match?`; the directives `step!`,
 * `next!` and `continue!` and the path filter `should_process_path?` are not
 * in engine.rb and are rebuilt from what the engine's tests require of them.
 */
module TracerEngine {
  import opened Wrappers
  import opened RubyText
  import opened EngineHelpers
  import opened Breakpoints

  /** `@mode` */
  datatype Mode = Running | Step | Next | Paused

  /** The trace events the engine subscribes to. */
  datatype EventKind = Line | Call | Return

  /** One trace event: its kind, `tp.path`, `tp.lineno` and `tp.binding`. */
  datatype Event = Event(kind: EventKind, path: string, lineno: int, binding: Binding)

  /** `@mode`, `@call_depth` and `@next_target_depth` (`None` for `nil`). */
  datatype EngineState = EngineState(mode: Mode, callDepth: int, nextTarget: Option<int>)

  /** The state `Engine.new` sets up. */
  const INITIAL: EngineState := EngineState(Running, 0, None)

  /** The state after an event, and whether the engine paused on it. */
  datatype Outcome = Outcome(state: EngineState, paused: bool)

  /** `pause`: the mode is `:paused` while waiting for the operator, then `:running` again. */
  function AfterPause(s: EngineState): (r: EngineState)
    ensures r.mode == Running && r.callDepth == s.callDepth && r.nextTarget == s.nextTarget
  {
    s.(mode := Running)
  }

  /**
   * The trace block for one event; `hit` is whether `match?` found a
   * breakpoint at the event's location (it is asked on line events only).
   */
  function Classify(s: EngineState, kind: EventKind, hit: bool): (o: Outcome)
    ensures kind == Call ==> o == Outcome(s.(callDepth := s.callDepth + 1), false)
    ensures kind == Return ==> o == Outcome(s.(callDepth := s.callDepth - 1), false)
    ensures kind == Line ==> o.state.callDepth == s.callDepth && o.state.nextTarget == s.nextTarget
    ensures kind == Line ==>
      (o.paused <==> hit || s.mode == Step || (s.mode == Next && s.nextTarget.Some? && s.callDepth <= s.nextTarget.value))
    ensures o.paused ==> o.state.mode == Running
    ensures !o.paused ==> o.state.mode == s.mode
  {
    match kind
    case Call => Outcome(s.(callDepth := s.callDepth + 1), false)
    case Return => Outcome(s.(callDepth := s.callDepth - 1), false)
    case Line =>
      if hit then Outcome(AfterPause(s), true)
      else if s.mode == Step then Outcome(AfterPause(s), true)
      else if s.mode == Next then
        if s.nextTarget.Some? && s.callDepth <= s.nextTarget.value then Outcome(AfterPause(s), true)
        else Outcome(s, false)
      else Outcome(s, false)
  }

  /** The operator's directives `step!`, `next!` and `continue!`. */
  datatype Directive = StepIn | StepOver | Resume

  /**
   * `step!` sets `:step`; `next!` sets `:next` with the target at the current
   * depth; `continue!` sets `:running`. None of them touches the depth.
   */
  function ApplyDirective(s: EngineState, d: Directive): (r: EngineState)
    ensures r.callDepth == s.callDepth
    ensures d == StepIn ==> r == s.(mode := Step)
    ensures d == StepOver ==> r.mode == Next && r.nextTarget == Some(s.callDepth)
    ensures d == Resume ==> r == s.(mode := Running)
  {
    match d
    case StepIn => s.(mode := Step)
    case StepOver => s.(mode := Next, nextTarget := Some(s.callDepth))
    case Resume => s.(mode := Running)
  }

  /** The trace block applied to each event in turn, with the pause decisions. */
  function Run(s: EngineState, events: seq<Event>, hit: Event -> bool): (r: (EngineState, seq<bool>))
    ensures |r.1| == |events|
    decreases |events|
  {
    if events == [] then (s, [])
    else
      var o := Classify(s, events[0].kind, events[0].kind == Line && hit(events[0]));
      var rest := Run(o.state, events[1..], hit);
      (rest.0, [o.paused] + rest.1)
  }

  /** How an event moves the depth. */
  function Delta(kind: EventKind): int {
    match kind
    case Call => 1
    case Return => -1
    case Line => 0
  }

  /** The depth after `events`, starting from `d`: calls minus returns. */
  function DepthAfter(d: int, events: seq<Event>): int
    decreases |events|
  {
    if events == [] then d else DepthAfter(d + Delta(events[0].kind), events[1..])
  }

  /** The number of events of a kind. */
  function CountKind(events: seq<Event>, kind: EventKind): nat
    decreases |events|
  {
    if events == [] then 0 else (if events[0].kind == kind then 1 else 0) + CountKind(events[1..], kind)
  }

  /** The depth moves by the number of calls minus the number of returns; it may go negative. */
  lemma {:induction false} DepthCountsCallsAndReturns(d: int, events: seq<Event>)
    ensures DepthAfter(d, events) == d + CountKind(events, Call) - CountKind(events, Return)
    decreases |events|
  {
    if events != [] {
      DepthCountsCallsAndReturns(d + Delta(events[0].kind), events[1..]);
    }
  }

  /**
   * Over any run, the depth ends at `DepthAfter` of the events, the
   * next-target never changes, and no call or return event pauses.
   */
  lemma {:induction false} RunTracksDepth(s: EngineState, events: seq<Event>, hit: Event -> bool)
    ensures Run(s, events, hit).0.callDepth == DepthAfter(s.callDepth, events)
    ensures Run(s, events, hit).0.nextTarget == s.nextTarget
    ensures forall i :: 0 <= i < |events| && events[i].kind != Line ==> !Run(s, events, hit).1[i]
    decreases |events|
  {
    if events != [] {
      var o := Classify(s, events[0].kind, events[0].kind == Line && hit(events[0]));
      RunTracksDepth(o.state, events[1..], hit);
      var r := Run(s, events, hit);
      forall i | 0 <= i < |events| && events[i].kind != Line ensures !r.1[i] {
        if i > 0 {
          assert events[i] == events[1..][i - 1];
          assert r.1[i] == Run(o.state, events[1..], hit).1[i - 1];
        }
      }
    }
  }

  /** In running mode, with no breakpoint hit, nothing ever pauses and the mode stays running. */
  lemma {:induction false} RunningWithoutHitsNeverPauses(s: EngineState, events: seq<Event>, hit: Event -> bool)
    requires s.mode == Running
    requires forall i :: 0 <= i < |events| ==> !hit(events[i])
    ensures Run(s, events, hit).0.mode == Running
    ensures forall i :: 0 <= i < |events| ==> !Run(s, events, hit).1[i]
    decreases |events|
  {
    if events != [] {
      var o := Classify(s, events[0].kind, events[0].kind == Line && hit(events[0]));
      forall i | 0 <= i < |events[1..]| ensures !hit(events[1..][i]) {
        assert events[1..][i] == events[i + 1];
      }
      RunningWithoutHitsNeverPauses(o.state, events[1..], hit);
      var r := Run(s, events, hit);
      forall i | 0 <= i < |events| ensures !r.1[i] {
        if i > 0 { assert r.1[i] == Run(o.state, events[1..], hit).1[i - 1]; }
      }
    }
  }

  /**
   * In step mode the first line event pauses, whatever calls and returns
   * came before it, and none of those earlier events pauses.
   */
  lemma {:induction false} StepPausesAtNextLine(s: EngineState, events: seq<Event>, hit: Event -> bool)
    requires s.mode == Step
    requires events != [] && events[|events| - 1].kind == Line
    requires forall i :: 0 <= i < |events| - 1 ==> events[i].kind != Line
    ensures Run(s, events, hit).1[|events| - 1]
    ensures forall i :: 0 <= i < |events| - 1 ==> !Run(s, events, hit).1[i]
    decreases |events|
  {
    var o := Classify(s, events[0].kind, events[0].kind == Line && hit(events[0]));
    if |events| > 1 {
      var tail := events[1..];
      forall i | 0 <= i < |tail| - 1 ensures tail[i].kind != Line {
        assert tail[i] == events[i + 1];
      }
      assert tail[|tail| - 1] == events[|events| - 1];
      StepPausesAtNextLine(o.state, tail, hit);
      var r := Run(s, events, hit);
      assert r.1[|events| - 1] == Run(o.state, tail, hit).1[|tail| - 1];
      forall i | 0 <= i < |events| - 1 ensures !r.1[i] {
        if i > 0 { assert r.1[i] == Run(o.state, tail, hit).1[i - 1]; }
      }
    }
  }

  /** The depth just before event `i`. */
  function DepthBefore(d: int, events: seq<Event>, i: nat): int
    requires i <= |events|
  {
    DepthAfter(d, events[..i])
  }

  lemma DepthBeforeShift(d: int, events: seq<Event>, i: nat)
    requires 0 < |events| && i < |events|
    ensures DepthBefore(d, events, i + 1) == DepthBefore(d + Delta(events[0].kind), events[1..], i)
  {
    assert events[..i + 1] != [];
    assert events[..i + 1][1..] == events[1..][..i];
  }

  /**
   * In next mode with target depth `t` and no breakpoint hit, the engine
   * pauses at the first line event reached at depth `t` or shallower, and at
   * nothing before it: deeper line events and all calls and returns pass.
   */
  lemma {:induction false} NextPausesAtShallowLine(s: EngineState, t: int, events: seq<Event>, hit: Event -> bool)
    requires s.mode == Next && s.nextTarget == Some(t)
    requires forall i :: 0 <= i < |events| ==> !hit(events[i])
    requires events != [] && events[|events| - 1].kind == Line
    requires forall i :: 0 <= i < |events| - 1 ==>
      !(events[i].kind == Line && DepthBefore(s.callDepth, events, i) <= t)
    ensures Run(s, events, hit).1[|events| - 1] <==> DepthBefore(s.callDepth, events, |events| - 1) <= t
    ensures forall i :: 0 <= i < |events| - 1 ==> !Run(s, events, hit).1[i]
    decreases |events|
  {
    var o := Classify(s, events[0].kind, events[0].kind == Line && hit(events[0]));
    assert events[..0] == [];
    if |events| > 1 {
      var tail := events[1..];
      var d := s.callDepth + Delta(events[0].kind);
      assert o.state == s.(callDepth := d);
      forall i | 0 <= i < |tail| ensures !hit(tail[i]) {
        assert tail[i] == events[i + 1];
      }
      forall i | 0 <= i < |tail| - 1 ensures !(tail[i].kind == Line && DepthBefore(d, tail, i) <= t) {
        assert tail[i] == events[i + 1];
        DepthBeforeShift(s.callDepth, events, i);
      }
      assert tail[|tail| - 1] == events[|events| - 1];
      NextPausesAtShallowLine(o.state, t, tail, hit);
      DepthBeforeShift(s.callDepth, events, |tail| - 1);
      var r := Run(s, events, hit);
      assert r.1[|events| - 1] == Run(o.state, tail, hit).1[|tail| - 1];
      forall i | 0 <= i < |events| - 1 ensures !r.1[i] {
        if i > 0 { assert r.1[i] == Run(o.state, tail, hit).1[i - 1]; }
      }
    }
  }

  /** A line event at a breakpoint pauses in every mode, going back to running. */
  lemma BreakpointPausesInEveryMode(s: EngineState)
    ensures Classify(s, Line, true) == Outcome(AfterPause(s), true)
  {
  }

  /** No breakpoint anywhere. */
  function NoBreakpoint(e: Event): bool {
    false
  }

  /** One step of `Run` over a run with no breakpoints. */
  lemma RunStep(s: EngineState, e: Event, rest: seq<Event>, o: Outcome, final: EngineState, pauses: seq<bool>)
    requires Classify(s, e.kind, false) == o
    requires Run(o.state, rest, NoBreakpoint) == (final, pauses)
    ensures Run(s, [e] + rest, NoBreakpoint) == (final, [o.paused] + pauses)
  {
    assert ([e] + rest)[1..] == rest;
  }

  /**
   * The scenario of the engine's next-mode test: `next!` at depth 0, then a
   * call, a line inside it, the return, and a line: only the last pauses,
   * and the depths are 1, 1, 0, 0.
   */
  lemma NextScenario(path: string, b: Binding)
    ensures var s := ApplyDirective(INITIAL, StepOver);
      var events := [Event(Call, path, 10, b), Event(Line, path, 11, b), Event(Return, path, 11, b), Event(Line, path, 12, b)];
      Run(s, events, NoBreakpoint) == (EngineState(Running, 0, Some(0)), [false, false, false, true])
  {
    var e0, e1, e2, e3 := Event(Call, path, 10, b), Event(Line, path, 11, b), Event(Return, path, 11, b), Event(Line, path, 12, b);
    var s0 := ApplyDirective(INITIAL, StepOver);
    var s1 := EngineState(Next, 1, Some(0));
    var s2 := EngineState(Next, 0, Some(0));
    var done := EngineState(Running, 0, Some(0));
    assert s0 == EngineState(Next, 0, Some(0));
    RunStep(s2, e3, [], Outcome(done, true), done, []);
    assert [e3] + [] == [e3] && [true] + [] == [true];
    RunStep(s1, e2, [e3], Outcome(s2, false), done, [true]);
    assert [e2] + [e3] == [e2, e3] && [false] + [true] == [false, true];
    RunStep(s1, e1, [e2, e3], Outcome(s1, false), done, [false, true]);
    assert [e1] + [e2, e3] == [e1, e2, e3] && [false] + [false, true] == [false, false, true];
    RunStep(s0, e0, [e1, e2, e3], Outcome(s1, false), done, [false, false, true]);
    assert [e0] + [e1, e2, e3] == [e0, e1, e2, e3] && [false] + [false, false, true] == [false, false, false, true];
  }

  /** The depth-tracking tests: from a new engine a call gives depth 1 and a return depth -1. */
  lemma DepthScenario(path: string, b: Binding)
    ensures Run(INITIAL, [Event(Call, path, 1, b)], NoBreakpoint).0.callDepth == 1
    ensures Run(INITIAL, [Event(Return, path, 1, b)], NoBreakpoint).0.callDepth == -1
  {
    assert [Event(Call, path, 1, b)][1..] == [];
    assert [Event(Return, path, 1, b)][1..] == [];
  }

  // ---------------------------------------------------------------------------
  // should_process_path?

  /**
   * `should_process_path?(tp)`: a trace event is the debugged program's when
   * it has a path, the path is not internal, it is not under the debugger's
   * own directory, and it is the script or lies under the script's directory.
   */
  function ShouldProcessPath(path: Option<string>, script: string, debuggerDir: string,
                             dirname: string -> string): (r: bool)
    ensures r <==> && path.Some? && !PathInternal(path.value) && !WithinDebuggerDir(debuggerDir, path.value)
                   && (path.value == script || StartsWith(path.value, AddTrailingSlash(dirname(script))))
    ensures r ==> path.value == script || StartsWith(path.value, dirname(script))
  {
    if EmptyOrInternal(path) then false
    else if WithinDebuggerDir(debuggerDir, path.value) then false
    else
      var (s, dir) := TargetDirAndScript(script, dirname);
      StartsWithTransitive(path.value, dir, dirname(script));
      ScriptOrWithinScriptDir(path.value, s, dir).Truthy()
  }

  lemma StartsWithTransitive(s: string, p: string, q: string)
    ensures StartsWith(s, p) && StartsWith(p, q) ==> StartsWith(s, q)
  {
    if StartsWith(s, p) && StartsWith(p, q) {
      assert s[..|q|] == s[..|p|][..|q|];
    }
  }

  /** "rejects nil paths" */
  lemma RejectsNilPath(script: string, debuggerDir: string, dirname: string -> string)
    ensures !ShouldProcessPath(None, script, debuggerDir, dirname)
  {
  }

  /** "rejects internal paths" */
  lemma RejectsInternalPath(rest: string, script: string, debuggerDir: string, dirname: string -> string)
    ensures !ShouldProcessPath(Some(INTERNAL_PREFIX + rest), script, debuggerDir, dirname)
  {
    InternalPrefixIsInternal(rest);
  }

  /** "rejects debugger files under lib/debugr" */
  lemma RejectsDebuggerFile(name: string, script: string, debuggerDir: string, dirname: string -> string)
    ensures !ShouldProcessPath(Some(AddTrailingSlash(debuggerDir) + name), script, debuggerDir, dirname)
  {
    JoinedWithinDebuggerDir(debuggerDir, name);
  }

  /**
   * A file beside the script's directory whose name only extends the
   * directory's name is not under it, and so is rejected unless it is the script.
   */
  lemma RejectsScriptDirSibling(suffix: string, script: string, debuggerDir: string, dirname: string -> string)
    requires !EndsWith(dirname(script), SEPARATOR)
    requires suffix != [] && suffix[0] != '/'
    requires dirname(script) + suffix != script
    ensures !ShouldProcessPath(Some(dirname(script) + suffix), script, debuggerDir, dirname)
  {
    SiblingNotWithinDebuggerDir(dirname(script), suffix);
    assert !StartsWith(dirname(script) + suffix, AddTrailingSlash(dirname(script)));
  }

  /** "accepts paths inside the target dir": an absolute path under the script's directory. */
  lemma AcceptsPathInTargetDir(name: string, script: string, debuggerDir: string, dirname: string -> string)
    requires dirname(script) != [] && dirname(script)[0] == '/'
    requires !WithinDebuggerDir(debuggerDir, AddTrailingSlash(dirname(script)) + name)
    ensures ShouldProcessPath(Some(AddTrailingSlash(dirname(script)) + name), script, debuggerDir, dirname)
  {
    var dir := AddTrailingSlash(dirname(script));
    var path := dir + name;
    assert path[0] == '/';
    AbsolutePathNotInternal(path);
    assert StartsWith(path, dir);
  }

  /** "accepts the path of the script itself": an absolute script outside the debugger. */
  lemma AcceptsScript(script: string, debuggerDir: string, dirname: string -> string)
    requires script != [] && script[0] == '/'
    requires !WithinDebuggerDir(debuggerDir, script)
    ensures ShouldProcessPath(Some(script), script, debuggerDir, dirname)
  {
    AbsolutePathNotInternal(script);
  }

  // ---------------------------------------------------------------------------
  // The engine object

  /** `Engine`: the mode, the call depth and the next-target, over a breakpoint registry. */
  class Engine {
    /** The registry `@session.breakpoints` refers to. */
    const breakpoints: BreakpointManager
    var mode: Mode
    var callDepth: int
    var nextTarget: Option<int>

    function State(): EngineState
      reads this
    {
      EngineState(mode, callDepth, nextTarget)
    }

    /** `Engine.new`: running, at depth 0, with no next-target. */
    constructor (breakpoints: BreakpointManager)
      ensures State() == INITIAL
      ensures this.breakpoints == breakpoints
    {
      this.breakpoints := breakpoints;
      mode := Running;
      callDepth := 0;
      nextTarget := None;
    }

    /** Whether `match?` finds a breakpoint for a line event at `path`, `lineno`, `binding`. */
    function Hit(path: string, lineno: int, binding: Binding): bool
      reads breakpoints, breakpoints.bps
    {
      breakpoints.Match(breakpoints.expandPath(path), lineno, binding)
    }

    /**
     * The trace block for one event: the new state and the pause decision are
     * `Classify` of the old state, with the breakpoint lookup done on the
     * expanded path for line events.
     */
    method HandleEvent(kind: EventKind, path: string, lineno: int, binding: Binding) returns (paused: bool)
      modifies this
      ensures Outcome(State(), paused) == Classify(old(State()), kind, kind == Line && Hit(path, lineno, binding))
    {
      paused := false;
      match kind {
        case Line =>
          var file := breakpoints.expandPath(path);
          if breakpoints.Match(file, lineno, binding) {
            Pause();
            paused := true;
          } else if mode == Step {
            Pause();
            paused := true;
          } else if mode == Next {
            if nextTarget.Some? && callDepth <= nextTarget.value {
              Pause();
              paused := true;
            }
          }
        case Call =>
          callDepth := callDepth + 1;
        case Return =>
          callDepth := callDepth - 1;
      }
    }

    /** `pause`: `:paused` while the operator is asked, then `:running`; nothing else changes. */
    method Pause()
      modifies this
      ensures State() == AfterPause(old(State()))
    {
      mode := Paused;
      mode := Running;
    }

    /** `step!` */
    method DoStep()
      modifies this
      ensures State() == ApplyDirective(old(State()), StepIn)
    {
      mode := Step;
    }

    /** `next!` */
    method DoNext()
      modifies this
      ensures State() == ApplyDirective(old(State()), StepOver)
    {
      mode := Next;
      nextTarget := Some(callDepth);
    }

    /** `continue!` */
    method DoContinue()
      modifies this
      ensures State() == ApplyDirective(old(State()), Resume)
    {
      mode := Running;
    }
  }

  /**
   * The registry of the engine's breakpoint test: one breakpoint set with
   * `"script:99"` matches line 99 of the script and not line 101.
   */
  lemma SingleBreakpointRegistry(script: string, expandPath: string -> string)
    requires Idempotent(expandPath) && ':' !in script
    ensures var r := AddSpec(FRESH, script + ":" + IntToString(99), script, NilBinding, expandPath);
      AnyMatch(r.entries, expandPath(script), 99, NilBinding) && !AnyMatch(r.entries, expandPath(script), 101, NilBinding)
  {
    AddedBreakpointMatches(FRESH, script, 99, script, NilBinding, expandPath);
    LocationWithFile(script, 99, [], script, expandPath);
    assert script + ":" + IntToString(99) + [] == script + ":" + IntToString(99);
    var r := AddSpec(FRESH, script + ":" + IntToString(99), script, NilBinding, expandPath);
    assert |r.entries| == 1 && r.entries[0].line == 99;
  }

  /**
   * The breakpoint test of the engine on the objects: after that `add`, a
   * line event at line 99 of the script pauses in running mode, and one at
   * line 101 does not.
   */
  method BreakpointScenario(script: string, expandPath: string -> string) returns (at99: bool, at101: bool)
    requires Idempotent(expandPath) && ':' !in script
    ensures at99 && !at101
  {
    var arg := script + ":" + IntToString(99);
    ghost var r := AddSpec(FRESH, arg, script, NilBinding, expandPath);
    var manager := new BreakpointManager(expandPath);
    var _ := manager.Add(arg, script, NilBinding);
    assert manager.State() == r;
    SingleBreakpointRegistry(script, expandPath);
    var engine := new Engine(manager);
    assert engine.Hit(script, 99, NilBinding) by {
      assert expandPath(expandPath(script)) == expandPath(script);
      assert manager.Match(expandPath(script), 99, NilBinding) == AnyMatch(r.entries, expandPath(script), 99, NilBinding);
    }
    assert !engine.Hit(script, 101, NilBinding) by {
      assert expandPath(expandPath(script)) == expandPath(script);
      assert manager.Match(expandPath(script), 101, NilBinding) == AnyMatch(r.entries, expandPath(script), 101, NilBinding);
    }
    at99 := engine.HandleEvent(Line, script, 99, NilBinding);
    at101 := engine.HandleEvent(Line, script, 101, NilBinding);
  }
}
