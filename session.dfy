/**
 * `Session` of `sh.go`: the object whose fields the builtins and the script
 * driver update in place. Every mutating method is specified by the pure
 * functions of `Builtins` and `Script` applied to the old state.
 */
module Sessions {
  import opened Wrappers
  import opened Text
  import opened Lines
  import opened Environ
  import opened Builtins
  import opened Script

  class Session {
    var err: Option<Fault>
    var alias: map<string, seq<string>>
    var fmap: map<string, Builtin>
    var cmds: seq<string>
    var env: map<string, string>
    var stdout: string

    /** Every stored alias has at least one token, so substitution never empties a command. */
    ghost predicate Valid()
      reads this
    {
      AliasesWellFormed(alias)
    }

    /** The part of the session builtins and commands act on. */
    function State(): Shell
      reads this
    {
      Shell(env, alias, stdout)
    }

    /** `New`: environment from the inherited `KEY=VALUE` list, no aliases, the default registry. */
    constructor New(environ: seq<string>)
      ensures Valid()
      ensures env == EnvOf(environ) && alias == map[] && fmap == DefaultFuncs
      ensures err == None && cmds == [] && stdout == ""
    {
      var e := EnvMap(environ);
      env := e;
      alias := map[];
      fmap := DefaultFuncs;
      err := None;
      cmds := [];
      stdout := "";
    }

    function GetEnv(key: string): (v: string)
      reads this
      ensures key in env ==> v == env[key]
      ensures key !in env ==> v == ""
    {
      Builtins.GetEnv(env, key)
    }

    method PutEnv(key: string, val: string)
      modifies this`env
      ensures env == old(env)[key := val]
    {
      env := env[key := val];
    }

    method SetError(e: Fault)
      modifies this`err
      ensures err == Some(e)
    {
      err := Some(e);
    }

    function Error(): (e: Option<Fault>)
      reads this
      ensures e == err
    {
      err
    }

    /** `Funcs`: install handlers; a nil handler removes its name. */
    method Funcs(funcs: map<string, Option<Builtin>>)
      modifies this`fmap
      ensures fmap == Merge(old(fmap), funcs)
    {
      var keys := funcs.Keys;
      while keys != {}
        invariant keys <= funcs.Keys
        invariant forall k :: k in funcs && k !in keys && funcs[k].None? ==> k !in fmap
        invariant forall k :: k in funcs && k !in keys && funcs[k].Some? ==> k in fmap && fmap[k] == funcs[k].value
        invariant forall k :: (k !in funcs || k in keys) ==> (k in fmap <==> k in old(fmap))
        invariant forall k :: (k !in funcs || k in keys) && k in fmap ==> fmap[k] == old(fmap)[k]
        decreases keys
      {
        var k :| k in keys;
        if funcs[k].None? {
          fmap := fmap - {k};
        } else {
          fmap := fmap[k := funcs[k].value];
        }
        keys := keys - {k};
      }
    }

    /** `Script`: the logical lines of the text become the commands to run. */
    method Script(str: string)
      modifies this`cmds
      ensures cmds == Assemble(Split(str, '\n'), "")
    {
      cmds := Unbreak(str);
    }

    method Export(cli: seq<string>) returns (e: Option<Fault>)
      requires |cli| >= 1
      modifies this`env
      ensures match Builtins.Export(old(State()), cli)
        case Ok(s) => e.None? && State() == s
        case Err(x) => e == Some(x) && env == old(env)
    {
      if |cli| != 2 {
        return Some(ArgCount(cli[0], cli[1..]));
      }
      var kv := cli[1];
      var idx := IndexByte(kv, '=');
      if idx == -1 {
        return Some(NoKeyValue);
      }
      PutEnv(kv[..idx], kv[idx + 1..]);
      return None;
    }

    method Echo(cli: seq<string>)
      requires |cli| >= 1
      modifies this`stdout
      ensures State() == Builtins.Echo(old(State()), cli)
    {
      stdout := stdout + Join(cli[1..], " ");
    }

    method Alias(cli: seq<string>) returns (e: Option<Fault>)
      requires |cli| >= 1 && Valid()
      modifies this`alias, this`stdout
      ensures Valid()
      ensures match Builtins.Alias(old(State()), cli)
        case Ok(s) => e.None? && State() == s
        case Err(x) => e == Some(x) && State() == old(State())
    {
      var name, args := cli[0], cli[1..];
      if |args| == 0 {
        return Some(MissingArg(name));
      } else if |args| == 1 {
        if args[0] !in alias {
          return Some(NotFound(name, args[0]));
        }
        stdout := stdout + Join(alias[args[0]], " ");
        stdout := stdout + "\n";
        return None;
      } else {
        alias := alias[args[0] := args[1..]];
        return None;
      }
    }

    method Unalias(cli: seq<string>) returns (e: Option<Fault>)
      requires |cli| >= 1 && Valid()
      modifies this`alias
      ensures Valid()
      ensures match Builtins.Unalias(old(State()), cli)
        case Ok(s) => e.None? && State() == s
        case Err(x) => e == Some(x) && alias == old(alias)
    {
      var name, args := cli[0], cli[1..];
      if |args| == 0 {
        return Some(MissingArg(name));
      } else if |args| == 1 {
        alias := alias - {args[0]};
        return None;
      } else {
        return Some(TooManyArgs(name));
      }
    }

    /** `fn(s, parts)`: run the registered handler `b`. */
    method Call(h: Host, b: Builtin, argv: seq<string>) returns (e: Option<Fault>)
      requires |argv| >= 1 && Valid()
      modifies this`env, this`alias, this`stdout
      ensures Valid()
      ensures (State(), e) == Invoke(h, b, old(State()), argv)
    {
      match b
      case AliasCmd => e := Alias(argv);
      case EchoCmd => Echo(argv); e := None;
      case ExportCmd => e := Export(argv);
      case UnaliasCmd => e := Unalias(argv);
      case Handler(id) =>
        var eff := h.call(id, argv);
        stdout := stdout + eff.written;
        e := if eff.failure.Some? then Some(Failed(argv[0], eff.failure.value)) else None;
    }

    /**
     * `Run`: nothing happens once an error is latched; otherwise the
     * commands run in order and the first failure is latched and returned.
     */
    method Run(h: Host) returns (e: Option<Fault>)
      requires Valid()
      modifies this`env, this`alias, this`stdout, this`err
      ensures Valid()
      ensures old(err).Some? ==> e.None? && err == old(err) && State() == old(State())
      ensures old(err).None? ==>
        match RunLines(h, fmap, old(State()), cmds)
        case Continue(s) => e.None? && err.None? && State() == s
        case Halt(s, latched, returned) => e == Some(returned) && err == Some(latched) && State() == s
    {
      if Error().Some? {
        return None;
      }
      var i := 0;
      while i < |cmds|
        invariant 0 <= i <= |cmds|
        invariant Valid() && err.None?
        invariant RunLines(h, fmap, old(State()), cmds) == RunLines(h, fmap, State(), cmds[i..])
      {
        assert cmds[i..][0] == cmds[i] && cmds[i..][1..] == cmds[i + 1..];
        var cmd := h.expand(cmds[i], env);
        var split := h.split(cmd);
        if split.Err? {
          SetError(BadLine(cmd, split.error));
          return Some(SyntaxError(split.error));
        }
        var parts := split.value;
        if |parts| == 0 {
          i := i + 1;
          continue;
        }
        if parts[0] in alias {
          parts := alias[parts[0]] + parts[1..];
        }
        if parts[0] in fmap {
          var fe := Call(h, fmap[parts[0]], parts);
          if fe.Some? {
            SetError(fe.value);
            return fe;
          }
          i := i + 1;
          continue;
        }
        var eff := h.spawn(parts);
        stdout := stdout + eff.written;
        if eff.failure.Some? {
          var failure := Failed(parts[0], eff.failure.value);
          SetError(failure);
          return Some(failure);
        }
        i := i + 1;
      }
      return None;
    }

    /** `Exec`: run one script text, or the given commands as they are. */
    method Exec(h: Host, commands: seq<string>) returns (e: Option<Fault>)
      requires Valid()
      modifies this`env, this`alias, this`stdout, this`err, this`cmds
      ensures Valid()
      ensures old(err).Some? ==> e.None? && err == old(err) && State() == old(State()) && cmds == old(cmds)
      ensures old(err).None? && |commands| == 0 ==>
        e == Some(NoCommands) && err.None? && State() == old(State()) && cmds == old(cmds)
      ensures old(err).None? && |commands| > 0 ==>
        && cmds == (if |commands| == 1 then Assemble(Split(commands[0], '\n'), "") else commands)
        && match RunLines(h, fmap, old(State()), cmds)
           case Continue(s) => e.None? && err.None? && State() == s
           case Halt(s, latched, returned) => e == Some(returned) && err == Some(latched) && State() == s
    {
      if Error().Some? {
        return None;
      }
      if |commands| == 0 {
        return Some(NoCommands);
      } else if |commands| == 1 {
        cmds := Unbreak(commands[0]);
      } else {
        cmds := commands;
      }
      e := Run(h);
    }

    /**
     * `Output`: run with a fresh captured stdout; the captured text on
     * success, the returned error otherwise.
     */
    method Output(h: Host) returns (r: Result<string, Fault>)
      requires Valid()
      modifies this`env, this`alias, this`stdout, this`err
      ensures Valid()
      ensures old(err).Some? ==> r == Ok("") && err == old(err) && State() == old(State()).(out := "")
      ensures old(err).None? ==>
        match RunLines(h, fmap, old(State()).(out := ""), cmds)
        case Continue(s) => r == Ok(s.out) && err.None? && State() == s
        case Halt(s, latched, returned) => r == Err(returned) && err == Some(latched) && State() == s
    {
      stdout := "";
      var e := Run(h);
      if e.Some? {
        return Err(e.value);
      }
      return Ok(stdout);
    }
  }
}
