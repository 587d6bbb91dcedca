/**
 * The session builtins of `sh.go` whose behaviour is all in the session's
 * tables: `export`, `echo`, `alias` and `unalias`. Each is a function from
 * the session's observable state and the command's full argument vector
 * (`cli[0]` is the command name) to the new state or an error; on an error
 * the state is unchanged.
 */
module Builtins {
  import opened Wrappers
  import opened Text
  import opened Environ

  /** What builtins and commands can change: environment, aliases, captured output. */
  datatype Shell = Shell(env: map<string, string>, alias: map<string, seq<string>>, out: string)

  /** Every stored alias has at least one replacement token. */
  predicate AliasesWellFormed(alias: map<string, seq<string>>) {
    forall name :: name in alias ==> |alias[name]| > 0
  }

  /** The errors the shell core can report. */
  datatype Fault =
    | BadLine(line: string, reason: string)   // latched when tokenizing fails
    | SyntaxError(reason: string)             // returned when tokenizing fails
    | ArgCount(cmd: string, got: seq<string>) // export without exactly one argument
    | NoKeyValue                              // export argument without `=`
    | MissingArg(cmd: string)                 // alias/unalias without arguments
    | NotFound(cmd: string, name: string)     // alias lookup of an unknown name
    | TooManyArgs(cmd: string)                // unalias with more than one argument
    | Failed(cmd: string, message: string)    // a handler or external process failed
    | NoCommands                              // Exec called without commands

  /** `GetEnv`: a missing key reads as the empty string. */
  function GetEnv(env: map<string, string>, key: string): string {
    if key in env then env[key] else ""
  }

  /** `export KEY=VALUE`: exactly one argument, cut at its first `=`. */
  function Export(sh: Shell, cli: seq<string>): (r: Result<Shell, Fault>)
    requires |cli| >= 1
    ensures r.Err? <==> |cli| != 2 || '=' !in cli[1]
    ensures |cli| != 2 ==> r == Err(ArgCount(cli[0], cli[1..]))
    ensures |cli| == 2 && '=' !in cli[1] ==> r == Err(NoKeyValue)
    ensures r.Ok? ==> r.value.alias == sh.alias && r.value.out == sh.out
    ensures r.Ok? ==>
      var k := SplitKV(cli[1]).value.0;
      && r.value.env.Keys == sh.env.Keys + {k}
      && cli[1] == k + "=" + r.value.env[k]
      && forall other :: other in sh.env && other != k ==> r.value.env[other] == sh.env[other]
  {
    if |cli| != 2 then Err(ArgCount(cli[0], cli[1..]))
    else
      match SplitKV(cli[1])
      case None => Err(NoKeyValue)
      case Some((k, v)) => Ok(sh.(env := sh.env[k := v]))
  }

  /** `echo`: the arguments joined by single spaces, no newline. */
  function Echo(sh: Shell, cli: seq<string>): (r: Shell)
    requires |cli| >= 1
    ensures r.env == sh.env && r.alias == sh.alias
    ensures r.out == sh.out + Join(cli[1..], " ")
  {
    sh.(out := sh.out + Join(cli[1..], " "))
  }

  /**
   * `alias NAME` prints the stored tokens joined by spaces and a newline;
   * `alias NAME TOKENS...` stores or overwrites; no argument is an error.
   * Flag parsing is not modelled: the arguments are `cli[1..]`.
   */
  function Alias(sh: Shell, cli: seq<string>): (r: Result<Shell, Fault>)
    requires |cli| >= 1
    ensures r.Err? <==> |cli| == 1 || (|cli| == 2 && cli[1] !in sh.alias)
    ensures |cli| == 1 ==> r == Err(MissingArg(cli[0]))
    ensures |cli| == 2 && cli[1] !in sh.alias ==> r == Err(NotFound(cli[0], cli[1]))
    ensures r.Ok? ==> r.value.env == sh.env
    ensures r.Ok? && |cli| == 2 ==>
      r.value.alias == sh.alias && r.value.out == sh.out + Join(sh.alias[cli[1]], " ") + "\n"
    ensures r.Ok? && |cli| > 2 ==>
      && r.value.out == sh.out
      && r.value.alias.Keys == sh.alias.Keys + {cli[1]}
      && r.value.alias[cli[1]] == cli[2..]
      && forall n :: n in sh.alias && n != cli[1] ==> r.value.alias[n] == sh.alias[n]
    ensures r.Ok? && AliasesWellFormed(sh.alias) ==> AliasesWellFormed(r.value.alias)
  {
    var name := cli[0];
    var args := cli[1..];
    if |args| == 0 then Err(MissingArg(name))
    else if |args| == 1 then
      if args[0] in sh.alias then Ok(sh.(out := sh.out + Join(sh.alias[args[0]], " ") + "\n"))
      else Err(NotFound(name, args[0]))
    else Ok(sh.(alias := sh.alias[args[0] := args[1..]]))
  }

  /** `unalias NAME`: exactly one argument; deleting an absent name is not an error. */
  function Unalias(sh: Shell, cli: seq<string>): (r: Result<Shell, Fault>)
    requires |cli| >= 1
    ensures r.Err? <==> |cli| != 2
    ensures |cli| == 1 ==> r == Err(MissingArg(cli[0]))
    ensures |cli| > 2 ==> r == Err(TooManyArgs(cli[0]))
    ensures r.Ok? ==>
      && r.value.env == sh.env && r.value.out == sh.out
      && r.value.alias.Keys == sh.alias.Keys - {cli[1]}
      && forall n :: n in r.value.alias ==> r.value.alias[n] == sh.alias[n]
  {
    var name := cli[0];
    var args := cli[1..];
    if |args| == 0 then Err(MissingArg(name))
    else if |args| == 1 then Ok(sh.(alias := sh.alias - {args[0]}))
    else Err(TooManyArgs(name))
  }

  /** Echoed words without spaces can be recovered by splitting the output on spaces. */
  lemma EchoRoundTrip(sh: Shell, cli: seq<string>)
    requires |cli| >= 2
    requires forall i :: 1 <= i < |cli| ==> ' ' !in cli[i]
    ensures var out := Echo(sh, cli).out; |sh.out| <= |out| && Split(out[|sh.out|..], ' ') == cli[1..]
  {
    var out := Echo(sh, cli).out;
    assert out[|sh.out|..] == Join(cli[1..], " ");
    SplitJoin(cli[1..], ' ');
  }

  /** What `export` stores is what `GetEnv` reads back. */
  lemma ExportThenGet(sh: Shell, cmd: string, k: string, v: string)
    requires '=' !in k
    ensures Export(sh, [cmd, k + "=" + v]).Ok?
    ensures GetEnv(Export(sh, [cmd, k + "=" + v]).value.env, k) == v
  {
    SplitKVRoundTrip(k, v);
  }

  /** Storing an alias and then looking it up prints the stored tokens. */
  lemma AliasThenLookup(sh: Shell, cmd: string, name: string, tokens: seq<string>)
    requires |tokens| > 0
    ensures Alias(sh, [cmd, name] + tokens).Ok?
    ensures var stored := Alias(sh, [cmd, name] + tokens).value;
      Alias(stored, [cmd, name]) == Ok(stored.(out := sh.out + Join(tokens, " ") + "\n"))
  {
    assert ([cmd, name] + tokens)[2..] == tokens;
  }

  /** After `unalias NAME`, looking NAME up fails. */
  lemma UnaliasThenLookup(sh: Shell, cmd: string, ucmd: string, name: string)
    ensures Unalias(sh, [ucmd, name]).Ok?
    ensures Alias(Unalias(sh, [ucmd, name]).value, [cmd, name]) == Err(NotFound(cmd, name))
  {
  }

  /** Storing an alias and removing it again restores the alias table, less any earlier binding. */
  lemma AliasThenUnalias(sh: Shell, cmd: string, ucmd: string, name: string, tokens: seq<string>)
    requires |tokens| > 0
    ensures Alias(sh, [cmd, name] + tokens).Ok?
    ensures Unalias(Alias(sh, [cmd, name] + tokens).value, [ucmd, name]) == Ok(sh.(alias := sh.alias - {name}))
  {
    assert ([cmd, name] + tokens)[2..] == tokens;
    var stored := Alias(sh, [cmd, name] + tokens).value;
    assert stored.alias - {name} == sh.alias - {name};
  }
}
