/**
 * The script driver of `sh.go` (`Session.Run`) as functions over the
 * session's observable state: each logical line is expanded against the
 * environment, tokenized, skipped when blank, alias-substituted once at its
 * head, and dispatched to a registered builtin or to an external process.
 * The first failure halts the run.
 *
 * Variable expansion (`os.Expand`), tokenizing (`shlex.Split`), handlers
 * outside this model and process execution are the fields of a `Host`.
 */
module Script {
  import opened Wrappers
  import opened Builtins

  /** What a command outside the model did: the text it wrote to stdout, and its failure if any. */
  datatype Effect = Effect(written: string, failure: Option<string>)

  /** A registered session handler: one of the four modelled builtins, or one outside the model. */
  datatype Builtin = AliasCmd | EchoCmd | ExportCmd | UnaliasCmd | Handler(id: string)

  /** The collaborators the driver calls out to. */
  datatype Host = Host(
    expand: (string, map<string, string>) -> string,   // os.Expand against the environment
    split: string -> Result<seq<string>, string>,      // shlex.Split, which may fail
    call: (string, seq<string>) -> Effect,             // cp, mkdir, mv, which and caller-supplied handlers
    spawn: seq<string> -> Effect)                      // exec.Command(argv...).Run()

  /** The registry a new session starts with. */
  const DefaultFuncs: map<string, Builtin> := map[
    "alias" := AliasCmd, "cp" := Handler("cp"), "echo" := EchoCmd, "export" := ExportCmd,
    "mkdir" := Handler("mkdir"), "mv" := Handler("mv"), "unalias" := UnaliasCmd,
    "which" := Handler("which")]

  /**
   * `Funcs`: install the given handlers into the registry; a nil handler
   * (None) removes its name.
   */
  function Merge(fmap: map<string, Builtin>, funcs: map<string, Option<Builtin>>): (r: map<string, Builtin>)
    ensures forall k :: k in funcs && funcs[k].None? ==> k !in r
    ensures forall k :: k in funcs && funcs[k].Some? ==> k in r && r[k] == funcs[k].value
    ensures forall k :: k !in funcs ==> (k in r <==> k in fmap)
    ensures forall k :: k !in funcs && k in fmap ==> r[k] == fmap[k]
  {
    map k | k in fmap.Keys + funcs.Keys && !(k in funcs && funcs[k].None?) ::
      if k in funcs then funcs[k].value else fmap[k]
  }

  /** The result of running one line, or several: go on, or halt with the latched and the returned error. */
  datatype Outcome = Continue(sh: Shell) | Halt(sh: Shell, latched: Fault, returned: Fault)

  /**
   * Alias substitution, applied once: a head token naming an alias is
   * replaced by the alias's tokens and the remaining tokens follow; the new
   * head is not looked up again.
   */
  function Resolve(alias: map<string, seq<string>>, parts: seq<string>): (argv: seq<string>)
    requires |parts| > 0 && AliasesWellFormed(alias)
    ensures |argv| >= |parts| && argv[|argv| - |parts| + 1..] == parts[1..]
    ensures argv[0] == if parts[0] in alias then alias[parts[0]][0] else parts[0]
  {
    if parts[0] in alias then alias[parts[0]] + parts[1..] else parts
  }

  /** Running a registered handler with the full argument vector. */
  function Invoke(h: Host, b: Builtin, sh: Shell, argv: seq<string>): (r: (Shell, Option<Fault>))
    requires |argv| >= 1 && AliasesWellFormed(sh.alias)
    ensures AliasesWellFormed(r.0.alias)
    ensures r.1.Some? && !b.Handler? ==> r.0 == sh
    ensures r.0.env != sh.env ==> b == ExportCmd
    ensures r.0.alias != sh.alias ==> b == AliasCmd || b == UnaliasCmd
    ensures sh.out <= r.0.out
  {
    match b
    case AliasCmd =>
      (match Alias(sh, argv) case Ok(s) => (s, None) case Err(e) => (sh, Some(e)))
    case EchoCmd => (Echo(sh, argv), None)
    case ExportCmd =>
      (match Export(sh, argv) case Ok(s) => (s, None) case Err(e) => (sh, Some(e)))
    case UnaliasCmd =>
      (match Unalias(sh, argv) case Ok(s) => (s, None) case Err(e) => (sh, Some(e)))
    case Handler(id) =>
      var eff := h.call(id, argv);
      var sh' := sh.(out := sh.out + eff.written);
      (sh', if eff.failure.Some? then Some(Failed(argv[0], eff.failure.value)) else None)
  }

  /** A registered head runs its handler; any other head is run as an external process. */
  function Dispatch(h: Host, fmap: map<string, Builtin>, sh: Shell, argv: seq<string>): (r: Outcome)
    requires |argv| >= 1 && AliasesWellFormed(sh.alias)
    ensures AliasesWellFormed(r.sh.alias)
    ensures r.Halt? ==> r.latched == r.returned
  {
    if argv[0] in fmap then
      var (sh', e) := Invoke(h, fmap[argv[0]], sh, argv);
      if e.Some? then Halt(sh', e.value, e.value) else Continue(sh')
    else
      var eff := h.spawn(argv);
      var sh' := sh.(out := sh.out + eff.written);
      match eff.failure
      case Some(m) => Halt(sh', Failed(argv[0], m), Failed(argv[0], m))
      case None => Continue(sh')
  }

  /** One logical line. */
  function Step(h: Host, fmap: map<string, Builtin>, sh: Shell, line: string): (r: Outcome)
    requires AliasesWellFormed(sh.alias)
    ensures AliasesWellFormed(r.sh.alias)
  {
    var cmd := h.expand(line, sh.env);
    match h.split(cmd)
    case Err(reason) => Halt(sh, BadLine(cmd, reason), SyntaxError(reason))
    case Ok(parts) =>
      if |parts| == 0 then Continue(sh)
      else Dispatch(h, fmap, sh, Resolve(sh.alias, parts))
  }

  /** The logical lines in order, stopping at the first failure. */
  function RunLines(h: Host, fmap: map<string, Builtin>, sh: Shell, lines: seq<string>): (r: Outcome)
    requires AliasesWellFormed(sh.alias)
    ensures AliasesWellFormed(r.sh.alias)
    decreases lines
  {
    if lines == [] then Continue(sh)
    else
      match Step(h, fmap, sh, lines[0])
      case Continue(sh') => RunLines(h, fmap, sh', lines[1..])
      case Halt(sh', latched, returned) => Halt(sh', latched, returned)
  }

  /** Once a prefix of the script halts, nothing after it runs. */
  lemma {:induction false} HaltIsFinal(h: Host, fmap: map<string, Builtin>, sh: Shell, a: seq<string>, b: seq<string>)
    requires AliasesWellFormed(sh.alias)
    requires RunLines(h, fmap, sh, a).Halt?
    ensures RunLines(h, fmap, sh, a + b) == RunLines(h, fmap, sh, a)
    decreases a
  {
    assert a != [];
    assert (a + b)[0] == a[0] && (a + b)[1..] == a[1..] + b;
    match Step(h, fmap, sh, a[0])
    case Continue(sh') => HaltIsFinal(h, fmap, sh', a[1..], b);
    case Halt(_, _, _) =>
  }

  /** Lines run strictly in order: a script is its first part, then the rest from the state it left. */
  lemma {:induction false} RunInOrder(h: Host, fmap: map<string, Builtin>, sh: Shell, a: seq<string>, b: seq<string>)
    requires AliasesWellFormed(sh.alias)
    requires RunLines(h, fmap, sh, a).Continue?
    ensures RunLines(h, fmap, sh, a + b) == RunLines(h, fmap, RunLines(h, fmap, sh, a).sh, b)
    decreases a
  {
    if a == [] {
      assert a + b == b;
    } else {
      assert (a + b)[0] == a[0] && (a + b)[1..] == a[1..] + b;
      RunInOrder(h, fmap, Step(h, fmap, sh, a[0]).sh, a[1..], b);
    }
  }

  /**
   * First error wins: when line `l` fails in the state the lines before it
   * left, the whole run's outcome is that failure, whatever follows.
   */
  lemma FirstErrorWins(h: Host, fmap: map<string, Builtin>, sh: Shell, before: seq<string>, l: string, after: seq<string>)
    requires AliasesWellFormed(sh.alias)
    requires RunLines(h, fmap, sh, before).Continue?
    requires Step(h, fmap, RunLines(h, fmap, sh, before).sh, l).Halt?
    ensures RunLines(h, fmap, sh, before + [l] + after) == Step(h, fmap, RunLines(h, fmap, sh, before).sh, l)
  {
    var mid := RunLines(h, fmap, sh, before).sh;
    assert before + [l] + after == before + ([l] + after);
    RunInOrder(h, fmap, sh, before, [l] + after);
    assert RunLines(h, fmap, mid, [l]) == Step(h, fmap, mid, l);
    HaltIsFinal(h, fmap, mid, [l], after);
  }

  /** A script whose every line tokenizes to nothing succeeds and changes nothing. */
  lemma {:induction false} BlankScript(h: Host, fmap: map<string, Builtin>, sh: Shell, lines: seq<string>)
    requires AliasesWellFormed(sh.alias)
    requires forall i :: 0 <= i < |lines| ==> h.split(h.expand(lines[i], sh.env)) == Ok([])
    ensures RunLines(h, fmap, sh, lines) == Continue(sh)
  {
    if lines != [] {
      assert h.split(h.expand(lines[0], sh.env)) == Ok([]);
      BlankScript(h, fmap, sh, lines[1..]);
    }
  }

  /** Output is only ever appended to. */
  lemma {:induction false} OutputOnlyGrows(h: Host, fmap: map<string, Builtin>, sh: Shell, lines: seq<string>)
    requires AliasesWellFormed(sh.alias)
    ensures sh.out <= RunLines(h, fmap, sh, lines).sh.out
    decreases lines
  {
    if lines != [] {
      var s := Step(h, fmap, sh, lines[0]);
      assert sh.out <= s.sh.out;
      if s.Continue? {
        OutputOnlyGrows(h, fmap, s.sh, lines[1..]);
      }
    }
  }

  /** One line changes the environment only through a registered `export`. */
  lemma StepKeepsEnv(h: Host, fmap: map<string, Builtin>, sh: Shell, line: string)
    requires AliasesWellFormed(sh.alias)
    requires forall n :: n in fmap ==> fmap[n] != ExportCmd
    ensures Step(h, fmap, sh, line).sh.env == sh.env
  {
    var cmd := h.expand(line, sh.env);
    if h.split(cmd).Ok? && |h.split(cmd).value| > 0 {
      var argv := Resolve(sh.alias, h.split(cmd).value);
      if argv[0] in fmap {
        assert Invoke(h, fmap[argv[0]], sh, argv).0.env == sh.env;
      }
    }
  }

  /** One line changes the alias table only through a registered `alias` or `unalias`. */
  lemma StepKeepsAliases(h: Host, fmap: map<string, Builtin>, sh: Shell, line: string)
    requires AliasesWellFormed(sh.alias)
    requires forall n :: n in fmap ==> fmap[n] != AliasCmd && fmap[n] != UnaliasCmd
    ensures Step(h, fmap, sh, line).sh.alias == sh.alias
  {
    var cmd := h.expand(line, sh.env);
    if h.split(cmd).Ok? && |h.split(cmd).value| > 0 {
      var argv := Resolve(sh.alias, h.split(cmd).value);
      if argv[0] in fmap {
        assert Invoke(h, fmap[argv[0]], sh, argv).0.alias == sh.alias;
      }
    }
  }

  /** Only the `export` builtin changes the environment. */
  lemma {:induction false} EnvOnlyByExport(h: Host, fmap: map<string, Builtin>, sh: Shell, lines: seq<string>)
    requires AliasesWellFormed(sh.alias)
    requires forall n :: n in fmap ==> fmap[n] != ExportCmd
    ensures RunLines(h, fmap, sh, lines).sh.env == sh.env
    decreases lines
  {
    if lines != [] {
      var s := Step(h, fmap, sh, lines[0]);
      StepKeepsEnv(h, fmap, sh, lines[0]);
      if s.Continue? {
        EnvOnlyByExport(h, fmap, s.sh, lines[1..]);
      }
    }
  }

  /** Only the `alias` and `unalias` builtins change the alias table. */
  lemma {:induction false} AliasesOnlyByAliasBuiltins(h: Host, fmap: map<string, Builtin>, sh: Shell, lines: seq<string>)
    requires AliasesWellFormed(sh.alias)
    requires forall n :: n in fmap ==> fmap[n] != AliasCmd && fmap[n] != UnaliasCmd
    ensures RunLines(h, fmap, sh, lines).sh.alias == sh.alias
    decreases lines
  {
    if lines != [] {
      var s := Step(h, fmap, sh, lines[0]);
      StepKeepsAliases(h, fmap, sh, lines[0]);
      if s.Continue? {
        AliasesOnlyByAliasBuiltins(h, fmap, s.sh, lines[1..]);
      }
    }
  }

  /** A registered head never reaches the external-process path. */
  lemma RegistryBeforeExternal(h: Host, spawn: seq<string> -> Effect, fmap: map<string, Builtin>, sh: Shell, argv: seq<string>)
    requires |argv| >= 1 && AliasesWellFormed(sh.alias) && argv[0] in fmap
    ensures Dispatch(h, fmap, sh, argv) == Dispatch(h.(spawn := spawn), fmap, sh, argv)
  {
  }

  /**
   * Substitution is not recursive: when an alias's first token is itself an
   * alias, it is still the head that is dispatched.
   */
  lemma AliasNotReResolved(alias: map<string, seq<string>>, name: string, rest: seq<string>)
    requires AliasesWellFormed(alias) && name in alias && alias[name][0] in alias
    ensures Resolve(alias, [name] + rest) == alias[name] + rest
    ensures Resolve(alias, [name] + rest) != Resolve(alias, alias[name] + rest) || alias[alias[name][0]] == [alias[name][0]]
  {
    var t := alias[name];
    assert ([name] + rest)[1..] == rest;
    assert (t + rest)[0] == t[0] && (t + rest)[1..] == t[1..] + rest;
    var twice := alias[t[0]] + (t[1..] + rest);
    if t + rest == twice {
      assert |alias[t[0]]| == 1 by {
        assert |twice| == |t + rest|;
      }
      assert alias[t[0]] == [twice[0]];
    }
  }

  /**
   * An alias whose first token is not an alias runs exactly as its expansion
   * would: `ll /tmp` with `ll` bound to `ls -l` is `ls -l /tmp`.
   */
  lemma AliasTransparent(alias: map<string, seq<string>>, name: string, rest: seq<string>)
    requires AliasesWellFormed(alias) && name in alias && alias[name][0] !in alias
    ensures Resolve(alias, [name] + rest) == Resolve(alias, alias[name] + rest) == alias[name] + rest
  {
    assert ([name] + rest)[1..] == rest;
    assert (alias[name] + rest)[0] == alias[name][0];
  }
}
