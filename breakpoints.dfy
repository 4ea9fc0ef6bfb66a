/**
 * Breakpoints (lib/debugr/breakpoint.rb) and the registry that owns them
 * (lib/debugr/breakpoints.rb). The registry keeps its breakpoints in the
 * order they were added and numbers them from 1; `match?` asks whether an
 * enabled breakpoint sits at a given file, line and frame binding.
 *
 * `File.expand_path` is a parameter of the registry (`expandPath`), and the
 * frame binding is an opaque token compared only by equality.
 */
module Breakpoints {
  import opened Wrappers
  import opened RubyText

  /** The frame binding of a trace point; only equality is observable. */
  datatype Binding = NilBinding | Frame(handle: nat)

  /** The fields of one breakpoint, as a value. */
  datatype Entry = Entry(id: int, file: string, line: int, binding: Binding, enabled: bool)

  /** A breakpoint object; only `enabled` is ever reassigned. */
  class Breakpoint {
    const id: int
    const file: string
    const line: int
    const binding: Binding
    var enabled: bool

    function View(): Entry
      reads this
    {
      Entry(id, file, line, binding, enabled)
    }

    /** `Breakpoint.new(id:, file:, line:, binding:)` stores its arguments and starts enabled. */
    constructor (id: int, file: string, line: int, binding: Binding)
      ensures View() == Entry(id, file, line, binding, true)
    {
      this.id := id;
      this.file := file;
      this.line := line;
      this.binding := binding;
      enabled := true;
    }

    /** `enable`: sets `enabled` and nothing else. */
    method Enable()
      modifies this
      ensures View() == old(View()).(enabled := true)
    {
      enabled := true;
    }

    /** `disable`: clears `enabled` and nothing else. */
    method Disable()
      modifies this
      ensures View() == old(View()).(enabled := false)
    {
      enabled := false;
    }
  }

  /**
   * Disabling and then enabling a breakpoint that was enabled gives back the
   * breakpoint it was, even when each is done twice.
   */
  method DisableThenEnable(b: Breakpoint)
    modifies b
    ensures old(b.enabled) ==> b.View() == old(b.View())
    ensures b.enabled
  {
    b.Disable();
    b.Disable();
    assert !b.enabled;
    b.Enable();
    b.Enable();
  }

  // ---------------------------------------------------------------------------
  // The registry as a value

  /** The list of breakpoints and the `next_id` counter. */
  datatype Registry = Registry(entries: seq<Entry>, nextId: int)

  /** `BreakpointManager.new`: no breakpoints, and the first id is 1. */
  const FRESH: Registry := Registry([], 1)

  /** Breakpoint i (counting from 0) has id i + 1, and `next_id` is the id the next one gets. */
  ghost predicate WellNumbered(r: Registry) {
    && r.nextId == |r.entries| + 1
    && forall i :: 0 <= i < |r.entries| ==> r.entries[i].id == i + 1
  }

  /**
   * `determine_file_and_line(arg, tp)`: with a colon, the expanded text before
   * the first colon and `to_i` of everything after it; without one, the trace
   * point's path and `to_i` of the whole argument.
   */
  function DetermineFileAndLine(arg: string, tpPath: string, expandPath: string -> string): (r: (string, int))
    ensures ':' in arg ==>
      exists k :: 0 <= k < |arg| && arg[k] == ':' && ':' !in arg[..k] && r == (expandPath(arg[..k]), ToI(arg[k + 1..]))
    ensures ':' !in arg ==> r == (tpPath, ToI(arg))
  {
    if ':' in arg then
      var k := IndexOf(arg, ':');
      (expandPath(arg[..k]), ToI(arg[k + 1..]))
    else
      (tpPath, ToI(arg))
  }

  /** `"file:n"` names line `n` of the expanded `file`, whatever follows the number. */
  lemma LocationWithFile(file: string, n: int, rest: string, tpPath: string, expandPath: string -> string)
    requires ':' !in file
    requires rest == [] || !IsDigit(rest[0])
    ensures DetermineFileAndLine(file + ":" + IntToString(n) + rest, tpPath, expandPath) == (expandPath(file), n)
  {
    var tail := IntToString(n) + rest;
    var arg := file + ":" + IntToString(n) + rest;
    assert arg == file + [':'] + tail;
    IndexOfAfter(file, ':', tail);
    assert arg[..|file|] == file;
    assert arg[|file| + 1..] == tail;
    ToIOfIntToString(n, rest);
  }

  /** A bare number `"n"` names line `n` of the trace point's own file. */
  lemma LocationWithoutFile(n: int, tpPath: string, expandPath: string -> string)
    ensures DetermineFileAndLine(IntToString(n), tpPath, expandPath) == (tpPath, n)
  {
    var s := IntToString(n);
    assert ':' !in s by {
      forall i | 0 <= i < |s| ensures s[i] != ':' {
        assert IsDigit(s[i]) || s[i] == '-';
      }
    }
    ToIOfIntToString(n, []);
    assert s + [] == s;
  }

  /** A line part that does not start like a number gives line 0; nothing is rejected. */
  lemma NonNumericLine(file: string, text: string, tpPath: string, expandPath: string -> string)
    requires ':' !in file
    requires text == [] || !(IsSpace(text[0]) || IsDigit(text[0]) || text[0] == '-' || text[0] == '+')
    ensures DetermineFileAndLine(file + ":" + text, tpPath, expandPath) == (expandPath(file), 0)
  {
    var arg := file + ":" + text;
    assert arg == file + [':'] + text;
    IndexOfAfter(file, ':', text);
    assert arg[..|file|] == file;
    assert arg[|file| + 1..] == text;
    ToINonNumeric(text);
  }

  /**
   * `add(arg, tp)`: appends a breakpoint with the next id, the location parsed
   * from `arg` (its file passed through `expand_path` once more), the trace
   * point's binding, and enabled; then advances `next_id`.
   */
  function AddSpec(reg: Registry, arg: string, tpPath: string, tpBinding: Binding,
                   expandPath: string -> string): (r: Registry)
    ensures |r.entries| == |reg.entries| + 1 && r.entries[..|reg.entries|] == reg.entries
    ensures r.nextId == reg.nextId + 1
  {
    var (file, line) := DetermineFileAndLine(arg, tpPath, expandPath);
    var e := Entry(reg.nextId, expandPath(file), line, tpBinding, true);
    assert (reg.entries + [e])[..|reg.entries|] == reg.entries;
    Registry(reg.entries + [e], reg.nextId + 1)
  }

  /** Adding keeps the numbering: the new breakpoint gets id n + 1 when there were n. */
  lemma AddKeepsNumbering(reg: Registry, arg: string, tpPath: string, tpBinding: Binding,
                          expandPath: string -> string)
    requires WellNumbered(reg)
    ensures WellNumbered(AddSpec(reg, arg, tpPath, tpBinding, expandPath))
    ensures AddSpec(reg, arg, tpPath, tpBinding, expandPath).entries[|reg.entries|].id == |reg.entries| + 1
  {
    var r := AddSpec(reg, arg, tpPath, tpBinding, expandPath);
    forall i | 0 <= i < |r.entries| ensures r.entries[i].id == i + 1 {
      if i < |reg.entries| {
        assert r.entries[i] == r.entries[..|reg.entries|][i];
      }
    }
  }

  /** A sequence of `add` calls, in order. */
  function AddAll(reg: Registry, args: seq<string>, tpPath: string, tpBinding: Binding,
                  expandPath: string -> string): Registry
    decreases |args|
  {
    if args == [] then reg
    else AddAll(AddSpec(reg, args[0], tpPath, tpBinding, expandPath), args[1..], tpPath, tpBinding, expandPath)
  }

  lemma {:induction false} AddAllKeepsNumbering(reg: Registry, args: seq<string>, tpPath: string,
                                                tpBinding: Binding, expandPath: string -> string)
    requires WellNumbered(reg)
    ensures var r := AddAll(reg, args, tpPath, tpBinding, expandPath);
      WellNumbered(r) && |r.entries| == |reg.entries| + |args|
    decreases |args|
  {
    if args != [] {
      AddKeepsNumbering(reg, args[0], tpPath, tpBinding, expandPath);
      AddAllKeepsNumbering(AddSpec(reg, args[0], tpPath, tpBinding, expandPath), args[1..], tpPath, tpBinding, expandPath);
    }
  }

  /**
   * Starting from a fresh registry, n calls of `add` number the breakpoints
   * 1, 2, ..., n in call order, and `next_id` exceeds every id handed out.
   */
  lemma IdsFollowCallOrder(args: seq<string>, tpPath: string, tpBinding: Binding, expandPath: string -> string)
    ensures var r := AddAll(FRESH, args, tpPath, tpBinding, expandPath);
      && |r.entries| == |args|
      && (forall i :: 0 <= i < |args| ==> r.entries[i].id == i + 1)
      && r.nextId == |args| + 1
      && forall i :: 0 <= i < |args| ==> r.entries[i].id < r.nextId
  {
    AddAllKeepsNumbering(FRESH, args, tpPath, tpBinding, expandPath);
  }

  // ---------------------------------------------------------------------------
  // match?

  /** The block of `match?` for one breakpoint. */
  predicate Matches(e: Entry, file: string, line: int, binding: Binding) {
    e.enabled && e.file == file && e.line == line && e.binding == binding
  }

  /** `@bps.any?`: some breakpoint of `entries` matches. */
  function AnyMatch(entries: seq<Entry>, file: string, line: int, binding: Binding): (r: bool)
    ensures r <==> exists i :: 0 <= i < |entries| && Matches(entries[i], file, line, binding)
  {
    if entries == [] then false
    else
      var rest := AnyMatch(entries[1..], file, line, binding);
      assert rest <==> exists i :: 1 <= i < |entries| && Matches(entries[i], file, line, binding) by {
        forall i | 1 <= i < |entries| ensures entries[i] == entries[1..][i - 1] { }
        if rest {
          var j :| 0 <= j < |entries| - 1 && Matches(entries[1..][j], file, line, binding);
          assert Matches(entries[j + 1], file, line, binding);
        }
      }
      Matches(entries[0], file, line, binding) || rest
  }

  /** A disabled breakpoint never contributes: disabling one cannot create a match. */
  lemma DisablingCannotAddMatch(entries: seq<Entry>, k: nat, file: string, line: int, binding: Binding)
    requires k < |entries|
    ensures AnyMatch(entries[k := entries[k].(enabled := false)], file, line, binding) ==> AnyMatch(entries, file, line, binding)
    ensures !AnyMatch(entries[k := entries[k].(enabled := false)], file, line, binding) ==>
      (AnyMatch(entries, file, line, binding) <==> Matches(entries[k], file, line, binding))
  {
    var d := entries[k := entries[k].(enabled := false)];
    if AnyMatch(d, file, line, binding) {
      var i :| 0 <= i < |d| && Matches(d[i], file, line, binding);
      assert Matches(entries[i], file, line, binding);
    }
    if AnyMatch(entries, file, line, binding) && !Matches(entries[k], file, line, binding) {
      var i :| 0 <= i < |entries| && Matches(entries[i], file, line, binding);
      assert Matches(d[i], file, line, binding);
    }
  }

  /** `File.expand_path` applied to its own result changes nothing. */
  ghost predicate Idempotent(f: string -> string) {
    forall p :: f(f(p)) == f(p)
  }

  /**
   * A breakpoint just added with `"file:n"` fires on a line event at line `n`
   * of that file with the same binding, when `expand_path` is idempotent.
   */
  lemma AddedBreakpointMatches(reg: Registry, file: string, n: int, tpPath: string, tpBinding: Binding,
                               expandPath: string -> string)
    requires Idempotent(expandPath)
    requires ':' !in file
    ensures var r := AddSpec(reg, file + ":" + IntToString(n), tpPath, tpBinding, expandPath);
      AnyMatch(r.entries, expandPath(file), n, tpBinding)
  {
    var arg := file + ":" + IntToString(n);
    LocationWithFile(file, n, [], tpPath, expandPath);
    assert arg + [] == arg;
    var r := AddSpec(reg, arg, tpPath, tpBinding, expandPath);
    assert expandPath(expandPath(file)) == expandPath(file);
    assert Matches(r.entries[|reg.entries|], expandPath(file), n, tpBinding);
  }

  // ---------------------------------------------------------------------------
  // match? on Binding objects, as written

  /**
   * The object a call of `tp.binding` returns. Ruby builds a new Binding
   * object on every call, and `Binding#==` is object identity, so two
   * objects are equal only when one call made both, or both are nil.
   */
  datatype BindingObject = NoObject | Built(frame: Binding, call: nat)

  /** What call number `call` of `tp.binding` returns in frame `frame`. */
  function ObjectAt(frame: Binding, call: nat): (o: BindingObject)
    ensures o == NoObject <==> frame == NilBinding
  {
    if frame == NilBinding then NoObject else Built(frame, call)
  }

  /**
   * The block of `match?` on objects: entry `e` keeps the object of call
   * `made`, and the event passes the object of call `call`.
   */
  predicate MatchesAsWritten(e: Entry, made: nat, file: string, line: int, binding: Binding, call: nat) {
    e.enabled && e.file == file && e.line == line && ObjectAt(e.binding, made) == ObjectAt(binding, call)
  }

  /** `@bps.any?` on objects; `made[i]` is the call that built entry i's object. */
  function AnyMatchAsWritten(entries: seq<Entry>, made: seq<nat>, file: string, line: int, binding: Binding,
                             call: nat): (r: bool)
    requires |made| == |entries|
    ensures r <==> exists i :: 0 <= i < |entries| && MatchesAsWritten(entries[i], made[i], file, line, binding, call)
  {
    if entries == [] then false
    else
      var rest := AnyMatchAsWritten(entries[1..], made[1..], file, line, binding, call);
      assert rest <==> exists i :: 1 <= i < |entries| && MatchesAsWritten(entries[i], made[i], file, line, binding, call) by {
        forall i | 1 <= i < |entries| ensures entries[i] == entries[1..][i - 1] && made[i] == made[1..][i - 1] { }
        if rest {
          var j :| 0 <= j < |entries| - 1 && MatchesAsWritten(entries[1..][j], made[1..][j], file, line, binding, call);
          assert MatchesAsWritten(entries[j + 1], made[j + 1], file, line, binding, call);
        }
      }
      MatchesAsWritten(entries[0], made[0], file, line, binding, call) || rest
  }

  /** Every match on objects is a match on frames, and with no binding the two agree. */
  lemma AsWrittenMatchIsFrameMatch(entries: seq<Entry>, made: seq<nat>, file: string, line: int, binding: Binding,
                                   call: nat)
    requires |made| == |entries|
    ensures AnyMatchAsWritten(entries, made, file, line, binding, call) ==> AnyMatch(entries, file, line, binding)
    ensures binding == NilBinding ==>
      AnyMatchAsWritten(entries, made, file, line, binding, call) == AnyMatch(entries, file, line, binding)
  {
    if AnyMatchAsWritten(entries, made, file, line, binding, call) {
      var i :| 0 <= i < |entries| && MatchesAsWritten(entries[i], made[i], file, line, binding, call);
      assert Matches(entries[i], file, line, binding);
    }
    if binding == NilBinding && AnyMatch(entries, file, line, binding) {
      var i :| 0 <= i < |entries| && Matches(entries[i], file, line, binding);
      assert MatchesAsWritten(entries[i], made[i], file, line, binding, call);
    }
  }

  /**
   * A line event reads its binding after every breakpoint was added, so on
   * objects no breakpoint matches an event that has a binding.
   */
  lemma AsWrittenMissesLaterCalls(entries: seq<Entry>, made: seq<nat>, file: string, line: int, binding: Binding,
                                  call: nat)
    requires |made| == |entries|
    requires binding != NilBinding
    requires forall i :: 0 <= i < |made| ==> made[i] < call
    ensures !AnyMatchAsWritten(entries, made, file, line, binding, call)
  {
  }

  /**
   * The breakpoint `"file:n"` that `AddedBreakpointMatches` shows firing on
   * frames never fires on objects: the event's `tp.binding` is a later call.
   */
  lemma AsWrittenAddedBreakpointNeverFires(reg: Registry, made: seq<nat>, file: string, n: int, tpPath: string,
                                           frame: Binding, addCall: nat, eventCall: nat,
                                           expandPath: string -> string)
    requires Idempotent(expandPath)
    requires ':' !in file
    requires frame != NilBinding
    requires |made| == |reg.entries|
    requires forall i :: 0 <= i < |made| ==> made[i] < eventCall
    requires addCall < eventCall
    ensures var r := AddSpec(reg, file + ":" + IntToString(n), tpPath, frame, expandPath);
      && AnyMatch(r.entries, expandPath(file), n, frame)
      && !AnyMatchAsWritten(r.entries, made + [addCall], expandPath(file), n, frame, eventCall)
  {
    AddedBreakpointMatches(reg, file, n, tpPath, frame, expandPath);
    var r := AddSpec(reg, file + ":" + IntToString(n), tpPath, frame, expandPath);
    AsWrittenMissesLaterCalls(r.entries, made + [addCall], expandPath(file), n, frame, eventCall);
  }

  // ---------------------------------------------------------------------------
  // The registry object

  /** The entries of a sequence of breakpoint objects, in order. */
  function Entries(bs: seq<Breakpoint>): (r: seq<Entry>)
    reads bs
    ensures |r| == |bs|
    ensures forall i :: 0 <= i < |bs| ==> r[i] == bs[i].View()
  {
    if bs == [] then [] else Entries(bs[..|bs| - 1]) + [bs[|bs| - 1].View()]
  }

  /** Breakpoint object `b` is enabled and at this location and binding. */
  predicate Fires(b: Breakpoint, file: string, line: int, binding: Binding)
    reads b
  {
    b.enabled && b.file == file && b.line == line && b.binding == binding
  }

  /** `BreakpointManager`: the breakpoint array and `next_id`. */
  class BreakpointManager {
    var bps: seq<Breakpoint>
    var nextId: int
    /** `File.expand_path` of the host. */
    const expandPath: string -> string

    function State(): Registry
      reads this, bps
    {
      Registry(Entries(bps), nextId)
    }

    /** A new manager has no breakpoints and hands out id 1 first. */
    constructor (expandPath: string -> string)
      ensures State() == FRESH
      ensures this.expandPath == expandPath
    {
      bps := [];
      nextId := 1;
      this.expandPath := expandPath;
    }

    /**
     * `add(arg, tp)`: the registry becomes `AddSpec` of what it was, and the
     * result is the advanced `next_id`, as Ruby returns the value of the
     * last assignment.
     */
    method Add(arg: string, tpPath: string, tpBinding: Binding) returns (newNextId: int)
      modifies this
      ensures State() == AddSpec(old(State()), arg, tpPath, tpBinding, expandPath)
      ensures newNextId == nextId == old(nextId) + 1
      ensures bps[..|bps| - 1] == old(bps) && fresh(bps[|bps| - 1])
    {
      var (file, line) := DetermineFileAndLine(arg, tpPath, expandPath);
      var b := new Breakpoint(nextId, expandPath(file), line, tpBinding);
      bps := bps + [b];
      nextId := nextId + 1;
      newNextId := nextId;
      assert bps[..|bps| - 1] == old(bps);
      assert Entries(bps) == old(Entries(bps)) + [b.View()];
    }

    /** `list`: the breakpoint objects themselves, in the order they were added. */
    function List(): (r: seq<Breakpoint>)
      reads this, bps
      ensures Entries(r) == State().entries
    {
      bps
    }

    /**
     * `match?(file, lineno, binding)`: some enabled breakpoint has the
     * expanded `file`, the line and the binding.
     */
    function Match(file: string, lineno: int, binding: Binding): (r: bool)
      reads this, bps
      ensures r <==> exists i :: 0 <= i < |bps| && Fires(bps[i], expandPath(file), lineno, binding)
      ensures r == AnyMatch(State().entries, expandPath(file), lineno, binding)
    {
      var r := AnyMatch(Entries(bps), expandPath(file), lineno, binding);
      assert forall i :: 0 <= i < |bps| ==>
        (Fires(bps[i], expandPath(file), lineno, binding) <==> Matches(Entries(bps)[i], expandPath(file), lineno, binding));
      r
    }
  }
}
