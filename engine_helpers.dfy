/**
 * Path predicates the engine uses to decide which trace events belong to the
 * debugged program (lib/debugr/utils/engine_helpers.rb). Paths are plain
 * strings; `File::SEPARATOR` is "/".
 */
module EngineHelpers {
  import opened Wrappers
  import opened RubyText

  const INTERNAL_PREFIX: string := "<internal:"
  const SEPARATOR: string := "/"

  /** `path_internal?`: the path names one of Ruby's own built-in frames. */
  predicate PathInternal(path: string) {
    StartsWith(path, INTERNAL_PREFIX)
  }

  /** `empty_or_internal?`: no path at all, or an internal one. */
  predicate EmptyOrInternal(path: Option<string>) {
    path.None? || PathInternal(path.value)
  }

  /** `add_trailing_slash` */
  function AddTrailingSlash(path: string): (r: string)
    ensures EndsWith(r, SEPARATOR)
    ensures StartsWith(r, path) && |path| <= |r| <= |path| + 1
    ensures r == path <==> EndsWith(path, SEPARATOR)
  {
    if EndsWith(path, SEPARATOR) then path else path + SEPARATOR
  }

  lemma AddTrailingSlashIdempotent(path: string)
    ensures AddTrailingSlash(AddTrailingSlash(path)) == AddTrailingSlash(path)
  {
  }

  /**
   * `target_dir_and_script`: the script, and the directory that holds it with
   * a trailing separator. `dirname` stands for `File.dirname`.
   */
  function TargetDirAndScript(script: string, dirname: string -> string): (r: (string, string))
    ensures r.0 == script
    ensures EndsWith(r.1, SEPARATOR) && StartsWith(r.1, dirname(script))
    ensures |r.1| <= |dirname(script)| + 1
  {
    (script, AddTrailingSlash(dirname(script)))
  }

  /**
   * `script_or_within_script_dir?`: `true` for the script itself or a path
   * under `dir`, and `nil` (never `false`) otherwise.
   */
  function ScriptOrWithinScriptDir(path: string, script: string, dir: string): (r: RValue)
    ensures r != RFalse
    ensures r.Truthy() <==> path == script || StartsWith(path, dir)
  {
    if path == script || StartsWith(path, dir) then RTrue else RNil
  }

  /**
   * `within_debugger_dir`: `path` lies under the directory `dir`, compared
   * against `dir` with a trailing separator so that a sibling directory whose
   * name merely starts with the same letters does not count.
   */
  function WithinDebuggerDir(dir: string, path: string): (r: bool)
    ensures r ==> StartsWith(path, dir)
    ensures EndsWith(dir, SEPARATOR) ==> (r <==> StartsWith(path, dir))
    ensures !EndsWith(dir, SEPARATOR) ==>
      (r <==> StartsWith(path, dir) && |dir| < |path| && path[|dir|] == '/')
  {
    StartsWithSlashed(dir, path);
    StartsWith(path, AddTrailingSlash(dir))
  }

  lemma StartsWithSlashed(dir: string, path: string)
    ensures StartsWith(path, dir + "/") <==> StartsWith(path, dir) && |dir| < |path| && path[|dir|] == '/'
  {
    var d := dir + "/";
    if StartsWith(path, d) {
      assert path[..|dir|] == path[..|d|][..|dir|];
      assert path[|dir|] == path[..|d|][|dir|];
    }
    if StartsWith(path, dir) && |dir| < |path| && path[|dir|] == '/' {
      assert path[..|d|] == path[..|dir|] + [path[|dir|]];
    }
  }

  /** A directory next to `dir` whose name extends `dir`'s is not inside it. */
  lemma SiblingNotWithinDebuggerDir(dir: string, suffix: string)
    requires !EndsWith(dir, SEPARATOR)
    requires suffix != [] && suffix[0] != '/'
    ensures !WithinDebuggerDir(dir, dir + suffix)
  {
    assert (dir + suffix)[|dir|] == suffix[0];
  }

  /** A file joined onto `dir` is inside it. */
  lemma JoinedWithinDebuggerDir(dir: string, name: string)
    ensures WithinDebuggerDir(dir, AddTrailingSlash(dir) + name)
  {
    assert StartsWith(AddTrailingSlash(dir) + name, AddTrailingSlash(dir));
  }

  /** An absolute path is never an internal frame. */
  lemma AbsolutePathNotInternal(path: string)
    requires path != [] && path[0] == '/'
    ensures !PathInternal(path) && !EmptyOrInternal(Some(path))
  {
    assert INTERNAL_PREFIX[0] == '<';
  }

  /** Every path written `<internal:...>` is internal, whatever follows the prefix. */
  lemma InternalPrefixIsInternal(rest: string)
    ensures PathInternal(INTERNAL_PREFIX + rest) && EmptyOrInternal(Some(INTERNAL_PREFIX + rest))
  {
    assert (INTERNAL_PREFIX + rest)[..|INTERNAL_PREFIX|] == INTERNAL_PREFIX;
  }
}
