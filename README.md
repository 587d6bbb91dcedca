# gsh execution core in Dafny

This project models the execution core of gsh, a small Go shell-scripting library. It covers three pieces.

- **The session and its script driver** (`sh.go`). A `Session` holds the environment, the alias table, the builtin registry, the list of commands to run, captured standard output and a single error latch. `unbreak` turns script text into logical lines. `Run` takes each line in order: it expands variables, tokenizes, skips blank lines, substitutes an alias once at the head, and dispatches to a registered builtin or to an external process. The first failure is latched and returned, and nothing after it runs. The builtins `export`, `echo`, `alias` and `unalias` act only on the session's tables and output, and are modelled in full. `envMap` and `newEnviron` convert between `KEY=VALUE` lists and maps.
- **The pipeline builder** (`run.go`). A command line is tokenized and cut into groups at literal `|` tokens (bar tokens). Each group becomes a stage: the `CmdMap` registry's command when the head is registered, an external process otherwise. Exactly one stage is returned unwrapped; any other number is wrapped in one `Line`. Stages are inert values.
- **The per-line transform helper** (`old/util.go`). `ForEachLine` applies a transform to each argument or, when there are none, to each line of standard input. It writes each result and a newline, and stops at the first transform error.

Layout: `wrappers.dfy` (Option, Result), `text.dfy` (IndexByte, Split, Join), `lines.dfy` (`unbreak`), `environ.dfy` (`envMap`, `newEnviron`), `builtins.dfy` (the four table builtins as functions on a `Shell` value), `script.dfy` (the driver as functions: `Resolve`, `Dispatch`, `Step`, `RunLines`), `session.dfy` (the `Session` class, whose methods update its fields and are proved against those functions), `pipeline.dfy` (`run.go`), `linemap.dfy` (`old/util.go`).

Three collaborators are passed in as functions, the fields of `Script.Host`, and are never interpreted:

- `os.Expand` (`expand`) and `shlex.Split` (`split`, which may fail).
- The handlers outside the model: `cp`, `mkdir`, `mv`, `which` and caller-supplied ones (`call`).
- External process execution, `exec.Command(...).Run()` (`spawn`).

Each of `call` and `spawn` reports the text it wrote and an optional failure.

**Line continuation.** In `unbreak` (`sh.go:313-317`), a raw line that *starts* with a backslash continues into the next line. Its last character is dropped, its leading backslash is kept, and the rest goes in front of the next ordinary line. A line that ends in a backslash is ordinary. `Lines.TrailingBackslashIsOrdinary` and `Lines.LeadingBackslashJoins` pin both behaviours down.

## Model

| member | source | states |
|---|---|---|
| Text.IndexByte | sh.go:162 | -1 exactly when the byte is absent; otherwise the position of its first occurrence |
| Text.Split | sh.go:309 | at least one piece; no piece contains the separator |
| Text.JoinSplit | sh.go:309 | joining the pieces of a split with the separator gives the original text back |
| Text.SplitJoin | sh.go:309 | splitting a join of separator-free pieces gives the pieces back |
| Lines.Unbreak | sh.go:308-332 | the loop computes `Assemble` of the newline-split script, in order |
| Lines.AssemblePlain | sh.go:313-320 | with no backslash-led line, the logical lines are exactly the raw lines |
| Lines.UnbreakPlain | sh.go:308-321 | a script with no backslash-led line is its split on newlines |
| Lines.ContinuationJoinsNext | sh.go:313-317 | a backslash-led line is never emitted alone: minus its last character, it is put in front of the next ordinary line |
| Lines.DanglingContinuation | sh.go:322-325 | a pending prefix at the end of the text is emitted as a final line exactly when it is non-empty |
| Lines.AssembleBound | sh.go:312-325 | no more logical lines than raw lines, plus one for a carried prefix |
| Lines.UnbreakBound | sh.go:308-325 | `unbreak` never yields more elements than raw lines |
| Lines.AssembleKeepsText | sh.go:312-325 | the concatenated output equals the carried prefix plus every raw line, with each backslash-led line's last character removed |
| Lines.UnbreakKeepsText | sh.go:308-325 | no content is lost or reordered except each backslash-led line's last character |
| Lines.TrailingBackslashIsOrdinary | sh.go:313-320 | a line ending in a backslash does not join the next line |
| Lines.LeadingBackslashJoins | sh.go:313-317 | `\echo a ` followed by `b` assembles to `\echo ab` |
| Environ.SplitKV | sh.go:277-281 | the entry is cut at its first `=`: the key has no `=`, the value may; none without `=` |
| Environ.SplitKVRoundTrip | sh.go:162-166 | writing `k=v` with an `=`-free key and cutting it again gives `(k, v)` back |
| Environ.EnvMap | sh.go:274-286 | the loop builds `EnvOf(orig)` |
| Environ.EnvOfKeys | sh.go:276-283 | a key is present exactly when some entry with `=` defines it; entries without `=` are skipped |
| Environ.EnvOfLastWins | sh.go:276-283 | a key's value comes from the last entry that defines it |
| Environ.InheritedMembers | sh.go:290-299 | an inherited line is kept exactly when no session key overrides it as a `key=` prefix |
| Environ.IsOverridden | sh.go:292-296 | true exactly when some session key `k` makes `k=` a prefix of the line |
| Environ.KeyValueLines | sh.go:301-303 | along a ghost iteration order that lists every session key exactly once, line `i` is that key followed by `=` and its value; so there is one line per key and nothing else |
| Environ.PairsCover | sh.go:301-303 | lines built along an order that lists every key hold each key's `k=v` line |
| Environ.PairsOnly | sh.go:301-303 | every line built along an order of keys is some key's `k=v` line |
| Environ.NewEnviron | sh.go:288-305 | the kept inherited lines in their original order (only when inheriting), then one `k=v` line per session key along an iteration order that lists every key exactly once |
| Builtins.Export | sh.go:156-167 | fails exactly when there is not one argument (an argument-count error) or it has no `=` (a no-key-value error); on success sets the key before the first `=` to the rest and changes no other key |
| Builtins.Echo | sh.go:170-179 | output gains the arguments joined by spaces, with no newline; tables unchanged |
| Builtins.Alias | sh.go:217-239 | no argument is a missing-argument error; one argument prints the stored tokens and a newline, or fails as not found when absent; more arguments store the rest under the first |
| Builtins.Unalias | sh.go:241-258 | exactly one argument deletes that name, silently when absent; otherwise an error |
| Builtins.EchoRoundTrip | sh.go:170-179 | space-free echoed words are recovered by splitting the new output on spaces |
| Builtins.ExportThenGet | sh.go:156-167 | after `export k=v`, reading `k` gives `v` |
| Builtins.AliasThenLookup | sh.go:224-236 | after storing an alias, looking it up prints exactly its tokens |
| Builtins.UnaliasThenLookup | sh.go:227-253 | after `unalias n`, looking `n` up fails as not found |
| Builtins.AliasThenUnalias | sh.go:235-253 | storing then deleting an alias leaves the table as before, minus that name |
| Script.Merge | sh.go:51-60 | nil handlers remove their name, others are installed, and every other name is untouched |
| Script.DefaultFuncs | sh.go:23-32 | the eight builtins a new session registers: the four modelled table builtins and four handlers outside the model |
| Script.Resolve | sh.go:120-124 | substituted tokens are non-empty, keep the original tail, and take the alias's first token as the head |
| Script.Invoke | sh.go:126-134 | a failed table builtin leaves the state unchanged; only `export` changes the environment; only `alias`/`unalias` change the aliases; output only grows |
| Script.Dispatch | sh.go:126-151 | every stored alias stays non-empty; a failure latches the same error it returns |
| Script.Step | sh.go:101-151 | one line keeps every stored alias non-empty |
| Script.RunLines | sh.go:100-153 | the run keeps every stored alias non-empty |
| Script.HaltIsFinal | sh.go:105-151 | once a prefix halts, lines after it do not change the outcome |
| Script.RunInOrder | sh.go:100-152 | lines run strictly in order: a script is its first part, then the rest from the state it left |
| Script.FirstErrorWins | sh.go:105-151 | the first failing line's error is the run's outcome, whatever follows |
| Script.BlankScript | sh.go:110-113 | a script whose lines all tokenize to nothing succeeds with no change |
| Script.OutputOnlyGrows | sh.go:100-152 | captured output is only appended to |
| Script.StepKeepsEnv | sh.go:126-151 | without a registered `export`, one line leaves the environment unchanged |
| Script.StepKeepsAliases | sh.go:126-151 | without registered `alias`/`unalias`, one line leaves the alias table unchanged |
| Script.EnvOnlyByExport | sh.go:126-151 | without a registered `export`, a run leaves the environment unchanged |
| Script.AliasesOnlyByAliasBuiltins | sh.go:126-151 | without registered `alias`/`unalias`, a run leaves the alias table unchanged |
| Script.RegistryBeforeExternal | sh.go:126-137 | a registered head never reaches the external process |
| Script.AliasNotReResolved | sh.go:120-124 | substitution happens once: an alias whose first token is an alias is not expanded again |
| Script.AliasTransparent | sh.go:120-124 | `ll /tmp`, with `ll` bound to `ls -l` and `ls` not an alias, runs as `ls -l /tmp` |
| Sessions.Session.New | sh.go:19-34 | environment from the inherited list, no aliases, the default registry, no error |
| Sessions.Session.GetEnv | sh.go:36-38 | the stored value, or the empty string for a missing key |
| Sessions.Session.PutEnv | sh.go:40-42 | sets one key |
| Sessions.Session.SetError | sh.go:44-46 | stores the error |
| Sessions.Session.Error | sh.go:47-49 | reads the stored error |
| Sessions.Session.Funcs | sh.go:51-60 | the registry becomes `Merge` of the old one and the given handlers |
| Sessions.Session.Script | sh.go:62-66 | the commands become the logical lines of the text |
| Sessions.Session.Export | sh.go:156-167 | updates the fields as `Builtins.Export` says; environment unchanged on failure |
| Sessions.Session.Echo | sh.go:170-179 | updates the fields as `Builtins.Echo` says |
| Sessions.Session.Alias | sh.go:217-239 | updates the fields as `Builtins.Alias` says and keeps every alias non-empty |
| Sessions.Session.Unalias | sh.go:241-258 | updates the fields as `Builtins.Unalias` says |
| Sessions.Session.Call | sh.go:126-134 | running a handler changes the state as `Invoke` says |
| Sessions.Session.Run | sh.go:96-154 | with an error already latched, returns nil and changes nothing; otherwise ends in the state `RunLines` gives, latching and returning its errors |
| Sessions.Session.Exec | sh.go:81-94 | no-op once latched; no commands is an error that is not latched; one command is unbroken, several run as given |
| Sessions.Session.Output | sh.go:68-79 | runs with fresh captured output; returns it on success and the returned error otherwise; once latched, returns empty output and changes nothing but the fresh output buffer |
| Pipeline.RunArgs | run.go:62-68 | a registered name yields the registry's stage, any other an external process, with the same name and arguments; never nil |
| Pipeline.CmdMap | run.go:8-17 | the eight names the pipeline registry maps to built-in commands |
| Pipeline.Groups | run.go:33-51 | every group formed is non-empty and holds no bar token |
| Pipeline.Stages | run.go:35-50 | one stage per group, in order, each resolved through `RunArgs` |
| Pipeline.GroupsStep | run.go:34-44 | one token of the loop: a bar token with an empty group panics, a bar token closes a non-empty group, any other token joins the current group |
| Pipeline.Run | run.go:20-59 | the loop computes `Build`: nil for no argv or a tokenizer failure, panic on an empty group, else the chained stages |
| Pipeline.OnlyFirstArgument | run.go:20-27 | only `argv[0]` is tokenized; the other elements play no part |
| Pipeline.GroupsKeepWords | run.go:33-44 | the groups, concatenated, are the tokens with every bar token removed, in order |
| Pipeline.GroupsRejoin | run.go:33-51 | the groups are cut exactly at the bar tokens: joined back with a bar token between neighbours, they give the pending tokens and the line again (no trailing bar) |
| Pipeline.PanicsExactly | run.go:34-35 | the code panics exactly when a bar token leads the line or follows another bar |
| Pipeline.TrailingBarAddsNothing | run.go:45-51 | a trailing bar token adds no stage |
| Pipeline.GroupCount | run.go:33-51 | the number of stages is the number of bar tokens, plus one when the last token is not a bar |
| Pipeline.BuildShape | run.go:53-58 | exactly one stage is returned unwrapped; otherwise a single `Line` of all stages in order, zero stages included |
| LineMap.Writer.Write | old/util.go:23-27 | a write that fits appends the bytes; otherwise nothing is written and a short-write error is returned |
| LineMap.ForEachLine | old/util.go:17-48 | the loops compute `ForEach` on the writer's bytes and the error returned |
| LineMap.ArgsIgnoreInput | old/util.go:18-33 | with arguments, standard input and its scan result play no part |
| LineMap.UnboundedLoopsAgree | old/util.go:18-43 | on a writer that refuses nothing, the argument loop and the input loop agree |
| LineMap.AllWritten | old/util.go:36-43 | when every item succeeds, the output is each result followed by a newline, in order |
| LineMap.FirstFailureStops | old/util.go:36-40 | the first failing item's error is returned; earlier output stays; later items are not processed |
| LineMap.FirstFailureStopsAnyLimit | old/util.go:37-40 | for every writer limit, the input loop returns the first failing item's error and its outcome does not depend on the items after it |
| LineMap.ArgsStopAtFirstFailure | old/util.go:18-26 | for every writer limit, the argument loop fails and never looks past the first failing item |
| LineMap.OneNewlinePerItem | old/util.go:23-27 | when no result contains a newline, exactly one newline is written per item |
| LineMap.OutputOnlyGrows | old/util.go:17-48 | bytes already written stay written |
| LineMap.InputErrorsAreTransformErrors | old/util.go:36-43 | on the input path the only error is a transform's; write errors are ignored |
| LineMap.RefusedWriteAborts | old/util.go:23-26 | a refused write of a result aborts the argument loop with that error |
| LineMap.RefusedNewlineIgnored | old/util.go:23-28 | in the argument loop, a refused newline write is ignored and the next argument is processed |
| LineMap.ScanErrorReported | old/util.go:44-47 | after a clean input loop, a scanner error is returned and end-of-file is not |
| LineMap.ScanErrorReportedAnyLimit | old/util.go:44-47 | for every writer limit, after an input loop with no transform error, a scanner error is returned and a clean end or end-of-file is success |
| LineMap.AllOkLinesSucceed | old/util.go:36-43 | for every writer limit, when every line transforms, the input loop returns no error: refused writes are ignored |

## Left out

- `os.Expand` and `shlex.Split` are uninterpreted functions of the `Host`. Their quoting and `$VAR` rules are not modelled.
- External processes (`exec.Command(...).Run()`) are reduced to the text they write and an optional failure. The child's stdin, stderr, environment and working directory are not modelled.
- `Mkdir`, `Move`, `Copy`, `copyFile` and the session `Which` depend on the filesystem and `PATH`. They are registered as opaque handlers run through `Host.call`. Note that `Move` and `Copy` discard each per-file rename or copy error (`sh.go:369`, `sh.go:442`).
- `Host.call` and `Host.spawn` are fixed functions of their arguments: the same command gives the same output and failure every time it runs. Outcomes that depend on earlier commands or on the filesystem (a second `mkdir d` failing after a first succeeded) are not modelled.
- Caller-supplied handlers installed with `Funcs` can, in Go, change any session field. Here they only write output and may fail.
- `flag.FlagSet` parsing in `Alias` and `Unalias` is not modelled. The arguments are taken as `cli[1..]`, as when none starts with `-`.
- `Stdin` and `Stderr` are not modelled. `Stdout` is a captured string that never refuses a write. `New` leaves the Go `Stdout` nil, so `echo` would panic on a nil writer; that case is not modelled.
- Go strings are byte slices, but the session model uses character sequences. `ForEachLine` works on bytes.
- `Writer.Write` is all-or-nothing: a refused write writes no bytes. A Go writer may report a partial write.
- `Session.Test` and `filetest.go` (templates and file predicates) are not part of this model.
- The leaf commands (`wget.go`, `git.go`, `parsetime.go`, `head.go`, `cat.go`, `base64.go`, `old/which.go`) and the entry points `cmd/gsh/main.go` and `cmd/junk/main.go` are not part of this model.
- All `log.Printf` calls are left out.
- `pipe.Exec` and `pipe.Line` are inert `Stage` values. Running them concurrently over OS pipes is not modelled. `CmdMap` is only its set of names, so which `Which` it refers to is not resolved.
- The nil check after each `RunArgs` call in `run.go` is omitted. `Pipeline.RunArgs` is proved never to return `Nil`, so the check cannot fire.
- `Environ.NewEnviron` does not fix the order of the `k=v` lines. Go's map iteration order is unspecified, so the contract names that order as a ghost output and states only that it lists each key exactly once.
- When `append(newargs, parts[1:]...)` substitutes an alias, it may share the stored slice's backing array. That Go slice aliasing is not modelled.
