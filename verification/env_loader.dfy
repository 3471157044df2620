/** `loadEnv` (telegram-sender.php:5-26): reads the lines of the `.env` file into the three
    places PHP keeps environment values, never overriding a key that `$_SERVER` or `$_ENV`
    already holds. */
module EnvLoader {
  import opened Wrappers
  import opened Text
  import opened PhpStrings

  /** `strpos(trim($line), '#') === 0` */
  predicate IsComment(line: string) {
    var t := PhpTrim(line);
    t != [] && t[0] == '#'
  }

  /** `list($name, $value) = explode('=', $line, 2)` followed by `trim` of both: the line is cut
      at its first "="; a line without "=" leaves `$value` null, which trims to "". */
  function SplitLine(line: string): (string, string) {
    var i := FirstIndex(line, '=');
    if i < |line| then (PhpTrim(line[..i]), PhpTrim(line[i + 1..])) else (PhpTrim(line), "")
  }

  /** A name containing no "=" followed by "=" and any value (which may itself contain "=")
      splits back into the trimmed name and the trimmed value. */
  lemma SplitAssignment(name: string, value: string)
    requires '=' !in name
    ensures SplitLine(name + "=" + value) == (PhpTrim(name), PhpTrim(value))
  {
    var line := name + "=" + value;
    assert line[|name|] == '=';
    assert forall k :: 0 <= k < |name| ==> line[k] == name[k];
    var i := FirstIndex(line, '=');
    assert i == |name|;
    assert line[..i] == name && line[i + 1..] == value;
  }

  /** The line is processed and names `k`: `file()` drops empty lines, comments are skipped. */
  predicate Defines(line: string, k: string) {
    line != "" && !IsComment(line) && SplitLine(line).0 == k
  }

  /** The value the first line naming `k` gives it. */
  function FirstDefinition(lines: seq<string>, k: string): Option<string> {
    if lines == [] then None
    else if Defines(lines[0], k) then Some(SplitLine(lines[0]).1)
    else FirstDefinition(lines[1..], k)
  }

  /** Looking at one more line changes the first definition only if there was none. */
  lemma {:induction false} FirstDefinitionSnoc(lines: seq<string>, line: string, k: string)
    ensures FirstDefinition(lines + [line], k) ==
      if FirstDefinition(lines, k).Some? then FirstDefinition(lines, k)
      else if Defines(line, k) then Some(SplitLine(line).1)
      else None
  {
    if lines == [] {
      assert lines + [line] == [line];
    } else {
      assert (lines + [line])[0] == lines[0];
      assert (lines + [line])[1..] == lines[1..] + [line];
      FirstDefinitionSnoc(lines[1..], line, k);
    }
  }

  /** No line defines `k` exactly when it has no first definition. */
  lemma {:induction false} FirstDefinitionNone(lines: seq<string>, k: string)
    ensures FirstDefinition(lines, k).None? <==> forall j :: 0 <= j < |lines| ==> !Defines(lines[j], k)
  {
    if lines != [] {
      FirstDefinitionNone(lines[1..], k);
      assert forall j :: 1 <= j < |lines| ==> lines[j] == lines[1..][j - 1];
    }
  }

  /** What `k` holds in a store that started as `start`, once `lines` are loaded: a key of
      `$_SERVER` or `$_ENV` keeps its value; any other key takes the value of its first
      definition, when there is one. */
  function Loaded(start: map<string, string>, server: map<string, string>, env: map<string, string>,
                  lines: seq<string>, k: string): (r: Option<string>)
    ensures k in server || k in env ==> r == Get(start, k)
    ensures r.None? ==> k !in start
  {
    if k in server || k in env then Get(start, k)
    else match FirstDefinition(lines, k)
      case Some(v) => Some(v)
      case None => Get(start, k)
  }

  /** `m` holds, for every key, what it should hold once `lines` are loaded. */
  ghost predicate Reflects(m: map<string, string>, start: map<string, string>, server: map<string, string>,
                           env: map<string, string>, lines: seq<string>)
  {
    forall k :: Get(m, k) == Loaded(start, server, env, lines, k)
  }

  /** One more line sets its name exactly when the name is neither protected nor already
      defined, and leaves every other key alone. */
  lemma StepReflects(m: map<string, string>, start: map<string, string>, server: map<string, string>,
                 env: map<string, string>, prefix: seq<string>, line: string, assigns: bool)
    requires Reflects(m, start, server, env, prefix)
    requires assigns <==> (&& Defines(line, SplitLine(line).0)
                           && SplitLine(line).0 !in server && SplitLine(line).0 !in env
                           && FirstDefinition(prefix, SplitLine(line).0).None?)
    ensures Reflects(if assigns then m[SplitLine(line).0 := SplitLine(line).1] else m,
                     start, server, env, prefix + [line])
  {
    var (name, value) := SplitLine(line);
    var m' := if assigns then m[name := value] else m;
    forall k ensures Get(m', k) == Loaded(start, server, env, prefix + [line], k) {
      FirstDefinitionSnoc(prefix, line, k);
      if assigns && k == name {
        assert Get(m', k) == Some(value);
      } else {
        assert Get(m', k) == Get(m, k);
        if Defines(line, k) && k !in server && k !in env {
          assert k == name;
          assert FirstDefinition(prefix, k).Some?;
        }
      }
    }
  }

  /** Against the stores as loaded so far, the loop's test `!array_key_exists` on both
      `$_SERVER` and `$_ENV` holds exactly when the name is neither protected from the start
      nor defined by an earlier line. */
  lemma Unclaimed(server: map<string, string>, env: map<string, string>, server0: map<string, string>,
                  env0: map<string, string>, prefix: seq<string>, name: string)
    requires Reflects(server, server0, server0, env0, prefix)
    requires Reflects(env, env0, server0, env0, prefix)
    ensures (name !in server && name !in env) <==>
            (name !in server0 && name !in env0 && FirstDefinition(prefix, name).None?)
  {
    assert Get(server, name) == Loaded(server0, server0, env0, prefix, name);
    assert Get(env, name) == Loaded(env0, server0, env0, prefix, name);
  }

  class Environment {
    /** `$_SERVER` */
    var server: map<string, string>
    /** `$_ENV` */
    var env: map<string, string>
    /** The process environment: what `putenv` writes and `getenv` reads. */
    var process: map<string, string>

    constructor (server: map<string, string>, env: map<string, string>, process: map<string, string>)
      ensures this.server == server && this.env == env && this.process == process
    {
      this.server := server;
      this.env := env;
      this.process := process;
    }

    /** Loads the lines of `.env`. `failed` reports the one way the loop dies: a line whose name
        trims to "" (such as "=x", or a line of spaces) makes `putenv` throw a
        ValueError that the surrounding `catch (Exception $e)` does not catch. */
    method LoadEnv(lines: seq<string>) returns (failed: bool)
      modifies this
      ensures failed <==>
        "" !in old(server) && "" !in old(env) && exists j :: 0 <= j < |lines| && Defines(lines[j], "")
      ensures !failed ==> forall k ::
        && Get(server, k) == Loaded(old(server), old(server), old(env), lines, k)
        && Get(env, k) == Loaded(old(env), old(server), old(env), lines, k)
        && Get(process, k) == Loaded(old(process), old(server), old(env), lines, k)
    {
      failed := false;
      var i := 0;
      while i < |lines| && !failed
        invariant 0 <= i <= |lines|
        invariant !failed ==> Reflects(server, old(server), old(server), old(env), lines[..i])
        invariant !failed ==> Reflects(env, old(env), old(server), old(env), lines[..i])
        invariant !failed ==> Reflects(process, old(process), old(server), old(env), lines[..i])
        invariant !failed ==> ("" in old(server) || "" in old(env) || FirstDefinition(lines[..i], "").None?)
        invariant failed ==> 0 < i && "" !in old(server) && "" !in old(env) && Defines(lines[i - 1], "")
      {
        assert lines[..i + 1] == lines[..i] + [lines[i]];
        FirstDefinitionSnoc(lines[..i], lines[i], "");
        failed := LoadLine(lines[i], old(server), old(env), old(process), lines[..i]);
        i := i + 1;
      }
      if !failed {
        assert lines[..i] == lines;
        FirstDefinitionNone(lines, "");
      }
    }

    /** The body of the `foreach`, for one line, after the lines in `prefix` were loaded into
        stores that started as `server0`, `env0` and `process0`. */
    method LoadLine(line: string, ghost server0: map<string, string>, ghost env0: map<string, string>,
                    ghost process0: map<string, string>, ghost prefix: seq<string>) returns (failed: bool)
      requires Reflects(server, server0, server0, env0, prefix)
      requires Reflects(env, env0, server0, env0, prefix)
      requires Reflects(process, process0, server0, env0, prefix)
      modifies this
      ensures failed <==> Defines(line, "") && "" !in server0 && "" !in env0 && FirstDefinition(prefix, "").None?
      ensures !failed ==> Reflects(server, server0, server0, env0, prefix + [line])
      ensures !failed ==> Reflects(env, env0, server0, env0, prefix + [line])
      ensures !failed ==> Reflects(process, process0, server0, env0, prefix + [line])
    {
      if line == "" || IsComment(line) {
        StepReflects(server, server0, server0, env0, prefix, line, false);
        StepReflects(env, env0, server0, env0, prefix, line, false);
        StepReflects(process, process0, server0, env0, prefix, line, false);
        return false;
      }
      var (name, value) := SplitLine(line);
      Unclaimed(server, env, server0, env0, prefix, name);
      if name !in server && name !in env {
        if name == "" {
          return true;
        }
        StepReflects(server, server0, server0, env0, prefix, line, true);
        StepReflects(env, env0, server0, env0, prefix, line, true);
        StepReflects(process, process0, server0, env0, prefix, line, true);
        process := process[name := value];
        env := env[name := value];
        server := server[name := value];
      } else {
        StepReflects(server, server0, server0, env0, prefix, line, false);
        StepReflects(env, env0, server0, env0, prefix, line, false);
        StepReflects(process, process0, server0, env0, prefix, line, false);
      }
      return false;
    }
  }
}
