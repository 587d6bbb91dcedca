/**
 * The pipeline builder of `run.go`: a command line is tokenized, cut into
 * groups at literal `|` tokens, and each group becomes a stage through the
 * `CmdMap` registry or, failing that, an external process. Stages are inert
 * values here; running them is not part of this model.
 */
module Pipeline {
  import opened Wrappers

  /** A `pipe.Pipe` value: a registry command, an external process, a `pipe.Line` of stages, or nil. */
  datatype Stage =
    | Builtin(name: string, args: seq<string>)
    | External(name: string, args: seq<string>)
    | Line(stages: seq<Stage>)
    | Nil

  /** What `Run` does: return a pipe (possibly nil), or panic on an empty group. */
  datatype Built = Returned(p: Stage) | Panicked

  /** The names `CmdMap` registers. */
  const CmdMap: set<string> :=
    {"wget", "which", "base64", "cat", "head", "gitLastModified", "fileLastModified", "strptime"}

  /** `RunArgs`: the registry's command when `cmd` is registered, an external process otherwise. */
  function RunArgs(cmd: string, args: seq<string>): (p: Stage)
    ensures p != Nil && !p.Line?
    ensures p.name == cmd && p.args == args
    ensures p.Builtin? <==> cmd in CmdMap
  {
    if cmd !in CmdMap then External(cmd, args) else Builtin(cmd, args)
  }

  /**
   * The groups the loop of `Run` forms from `toks` when `cur` holds the
   * tokens gathered since the last `|`; None when a `|` meets an empty
   * group, where the code indexes an empty slice.
   */
  function Groups(toks: seq<string>, cur: seq<string>): (r: Option<seq<seq<string>>>)
    ensures r.Some? && "|" !in cur ==>
      forall i :: 0 <= i < |r.value| ==> |r.value[i]| > 0 && "|" !in r.value[i]
    decreases |toks|
  {
    if toks == [] then Some(if |cur| > 0 then [cur] else [])
    else if toks[0] == "|" then
      if |cur| == 0 then None
      else
        match Groups(toks[1..], [])
        case None => None
        case Some(gs) => Some([cur] + gs)
    else Groups(toks[1..], cur + [toks[0]])
  }

  /** The stage of each group, in order. */
  function Stages(gs: seq<seq<string>>): (ps: seq<Stage>)
    requires forall i :: 0 <= i < |gs| ==> |gs[i]| > 0
    ensures |ps| == |gs|
    ensures forall i :: 0 <= i < |gs| ==> ps[i] == RunArgs(gs[i][0], gs[i][1..])
  {
    if gs == [] then [] else [RunArgs(gs[0][0], gs[0][1..])] + Stages(gs[1..])
  }

  /** A single stage is returned as it is; any other number is wrapped in one `pipe.Line`. */
  function Chain(ps: seq<Stage>): Stage
  {
    if |ps| == 1 then ps[0] else Line(ps)
  }

  /** Tokens with every `|` removed. */
  function Words(toks: seq<string>): seq<string>
  {
    if toks == [] then []
    else if toks[0] == "|" then Words(toks[1..])
    else [toks[0]] + Words(toks[1..])
  }

  function Flatten(gs: seq<seq<string>>): seq<string>
  {
    if gs == [] then [] else gs[0] + Flatten(gs[1..])
  }

  /** The groups already formed, followed by those still to come. */
  function After(done: seq<seq<string>>, rest: Option<seq<seq<string>>>): Option<seq<seq<string>>>
  {
    match rest
    case None => None
    case Some(gs) => Some(done + gs)
  }

  lemma AfterNothing(o: Option<seq<seq<string>>>)
    ensures After([], o) == o
  {
    if o.Some? {
      assert [] + o.value == o.value;
    }
  }

  lemma AfterAfter(a: seq<seq<string>>, b: seq<seq<string>>, o: Option<seq<seq<string>>>)
    ensures After(a, After(b, o)) == After(a + b, o)
  {
    if o.Some? {
      assert a + (b + o.value) == (a + b) + o.value;
    }
  }

  /** The specification of `Run`. */
  function Build(argv: seq<string>, split: string -> Result<seq<string>, string>): Built
  {
    if |argv| == 0 then Returned(Nil)
    else
      match split(argv[0])
      case Err(_) => Returned(Nil)
      case Ok(toks) =>
        match Groups(toks, [])
        case None => Panicked
        case Some(gs) => Returned(Chain(Stages(gs)))
  }

  /** One step of the loop of `Run` on the token at position `i`. */
  lemma GroupsStep(toks: seq<string>, i: nat, cur: seq<string>)
    requires i < |toks|
    ensures toks[i] == "|" && |cur| == 0 ==> Groups(toks[i..], cur).None?
    ensures toks[i] == "|" && |cur| > 0 ==> Groups(toks[i..], cur) == After([cur], Groups(toks[i + 1..], []))
    ensures toks[i] != "|" ==> Groups(toks[i..], cur) == Groups(toks[i + 1..], cur + [toks[i]])
  {
    assert toks[i..][0] == toks[i] && toks[i..][1..] == toks[i + 1..];
  }

  lemma StagesAppend(done: seq<seq<string>>, g: seq<string>)
    requires forall j :: 0 <= j < |done| ==> |done[j]| > 0
    requires |g| > 0
    ensures Stages(done + [g]) == Stages(done) + [RunArgs(g[0], g[1..])]
  {
  }

  /** `Run`: only `argv[0]` is tokenized; the other elements are ignored. */
  method Run(argv: seq<string>, split: string -> Result<seq<string>, string>) returns (b: Built)
    ensures b == Build(argv, split)
  {
    if |argv| == 0 {
      return Returned(Nil);
    }
    var r := split(argv[0]);
    if r.Err? {
      return Returned(Nil);
    }
    var args := r.value;
    var pipes: seq<Stage> := [];
    var cmdarg: seq<string> := [];
    ghost var done: seq<seq<string>> := [];
    var i := 0;
    assert args[i..] == args;
    AfterNothing(Groups(args, []));
    while i < |args|
      invariant 0 <= i <= |args|
      invariant "|" !in cmdarg
      invariant forall j :: 0 <= j < |done| ==> |done[j]| > 0
      invariant pipes == Stages(done)
      invariant Groups(args, []) == After(done, Groups(args[i..], cmdarg))
    {
      var a := args[i];
      GroupsStep(args, i, cmdarg);
      if a == "|" {
        if |cmdarg| == 0 {
          return Panicked;  // cmdarg[0] on an empty slice
        }
        // RunArgs never yields nil, so the nil check after it cannot fire.
        var p := RunArgs(cmdarg[0], cmdarg[1..]);
        StagesAppend(done, cmdarg);
        pipes := pipes + [p];
        AfterAfter(done, [cmdarg], Groups(args[i + 1..], []));
        done := done + [cmdarg];
        cmdarg := [];
      } else {
        cmdarg := cmdarg + [a];
      }
      i := i + 1;
    }
    assert args[i..] == [];
    if |cmdarg| > 0 {
      var p := RunArgs(cmdarg[0], cmdarg[1..]);
      StagesAppend(done, cmdarg);
      pipes := pipes + [p];
      done := done + [cmdarg];
    } else {
      assert done + [] == done;
    }
    assert Groups(args, []) == Some(done);
    if |pipes| == 1 {
      return Returned(pipes[0]);
    }
    return Returned(Line(pipes));
  }

  /** Only `argv[0]` is tokenized; the other elements play no part. */
  lemma OnlyFirstArgument(argv: seq<string>, split: string -> Result<seq<string>, string>)
    requires |argv| > 0
    ensures Build(argv, split) == Build([argv[0]], split)
  {
  }

  /** Concatenated, the groups are the tokens with every `|` removed, in order. */
  lemma {:induction false} GroupsKeepWords(toks: seq<string>, cur: seq<string>)
    requires Groups(toks, cur).Some?
    ensures Flatten(Groups(toks, cur).value) == cur + Words(toks)
    decreases |toks|
  {
    if toks == [] {
      if |cur| > 0 {
        assert Flatten([cur]) == cur + Flatten([]);
      }
    } else if toks[0] == "|" {
      GroupsKeepWords(toks[1..], []);
      var gs := Groups(toks[1..], []).value;
      assert ([cur] + gs)[1..] == gs;
      assert [] + Words(toks[1..]) == Words(toks[1..]);
    } else {
      GroupsKeepWords(toks[1..], cur + [toks[0]]);
      assert cur + [toks[0]] + Words(toks[1..]) == cur + ([toks[0]] + Words(toks[1..]));
    }
  }

  /** The groups written back as one token line, a `|` token between neighbours. */
  function Rejoin(gs: seq<seq<string>>): seq<string>
  {
    if gs == [] then []
    else if |gs| == 1 then gs[0]
    else gs[0] + ["|"] + Rejoin(gs[1..])
  }

  /**
   * The groups are cut exactly at the `|` tokens: joined back with `|`,
   * they give the pending tokens and the line again (absent a trailing `|`,
   * which `TrailingBarAddsNothing` covers).
   */
  lemma {:induction false} GroupsRejoin(toks: seq<string>, cur: seq<string>)
    requires Groups(toks, cur).Some?
    requires |toks| > 0 ==> toks[|toks| - 1] != "|"
    ensures Rejoin(Groups(toks, cur).value) == cur + toks
    decreases |toks|
  {
    if toks == [] {
      assert cur + toks == cur;
    } else {
      var rest := toks[1..];
      assert toks == [toks[0]] + rest;
      if |rest| > 0 {
        assert rest[|rest| - 1] == toks[|toks| - 1];
      }
      if toks[0] == "|" {
        GroupsRejoin(rest, []);
        var gs := Groups(rest, []).value;
        assert Groups(toks, cur).value == [cur] + gs;
        RejoinCons(cur, gs);
      } else {
        GroupsRejoin(rest, cur + [toks[0]]);
      }
    }
  }

  lemma RejoinCons(g: seq<string>, gs: seq<seq<string>>)
    requires |gs| > 0
    ensures Rejoin([g] + gs) == g + ["|"] + Rejoin(gs)
  {
    assert ([g] + gs)[1..] == gs;
  }

  /** Does a `|` at position `i` close an empty group? */
  predicate EmptyGroupAt(toks: seq<string>, cur: seq<string>, i: nat)
    requires i < |toks|
  {
    toks[i] == "|" && (if i == 0 then |cur| == 0 else toks[i - 1] == "|")
  }

  /** `Run` panics exactly when some `|` closes an empty group: a leading `|` or two in a row. */
  lemma {:induction false} PanicsExactly(toks: seq<string>, cur: seq<string>)
    ensures Groups(toks, cur).None? <==> exists i :: 0 <= i < |toks| && EmptyGroupAt(toks, cur, i)
    decreases |toks|
  {
    if toks != [] {
      var rest := toks[1..];
      var cur' := if toks[0] == "|" then [] else cur + [toks[0]];
      PanicsExactly(rest, cur');
      forall i | 1 <= i < |toks| ensures EmptyGroupAt(toks, cur, i) <==> EmptyGroupAt(rest, cur', i - 1) {
        assert toks[i] == rest[i - 1];
        if i > 1 {
          assert toks[i - 1] == rest[i - 2];
        }
      }
      if exists i :: 0 <= i < |rest| && EmptyGroupAt(rest, cur', i) {
        var i :| 0 <= i < |rest| && EmptyGroupAt(rest, cur', i);
        assert EmptyGroupAt(toks, cur, i + 1);
      }
      if toks[0] == "|" && |cur| == 0 {
        assert EmptyGroupAt(toks, cur, 0);
      }
    }
  }

  /** A trailing `|` adds no stage. */
  lemma {:induction false} TrailingBarAddsNothing(toks: seq<string>, cur: seq<string>)
    requires |toks| > 0 ==> toks[|toks| - 1] != "|"
    requires |toks| == 0 ==> |cur| > 0
    ensures Groups(toks + ["|"], cur) == Groups(toks, cur)
    decreases |toks|
  {
    if toks == [] {
      assert toks + ["|"] == ["|"];
      assert [cur] + [] == [cur];
    } else {
      assert (toks + ["|"])[0] == toks[0] && (toks + ["|"])[1..] == toks[1..] + ["|"];
      if toks[0] == "|" {
        assert |toks| > 1;
        TrailingBarAddsNothing(toks[1..], []);
      } else {
        TrailingBarAddsNothing(toks[1..], cur + [toks[0]]);
      }
    }
  }

  /** The number of stages is the number of `|` tokens, plus one when the last token is not `|`. */
  function Bars(toks: seq<string>): nat
  {
    if toks == [] then 0 else (if toks[0] == "|" then 1 else 0) + Bars(toks[1..])
  }

  lemma {:induction false} GroupCount(toks: seq<string>, cur: seq<string>)
    requires Groups(toks, cur).Some?
    ensures |Groups(toks, cur).value| ==
      Bars(toks) + (if (|toks| == 0 && |cur| > 0) || (|toks| > 0 && toks[|toks| - 1] != "|") then 1 else 0)
    decreases |toks|
  {
    if toks != [] {
      var rest := toks[1..];
      if toks[0] == "|" {
        GroupCount(rest, []);
      } else {
        GroupCount(rest, cur + [toks[0]]);
      }
      if |rest| > 0 {
        assert toks[|toks| - 1] == rest[|rest| - 1];
      }
    }
  }

  /**
   * What `Run` returns for a well-formed line: exactly one stage is returned
   * unwrapped, any other number of stages (zero included) as one `Line` of
   * the groups' stages in order.
   */
  lemma BuildShape(argv: seq<string>, split: string -> Result<seq<string>, string>, toks: seq<string>)
    requires |argv| > 0 && split(argv[0]) == Ok(toks) && Groups(toks, []).Some?
    ensures var gs := Groups(toks, []).value;
      && Build(argv, split).Returned?
      && (|gs| == 1 ==> Build(argv, split).p == RunArgs(gs[0][0], gs[0][1..]))
      && (|gs| != 1 ==>
            && Build(argv, split).p.Line?
            && |Build(argv, split).p.stages| == |gs|
            && forall i :: 0 <= i < |gs| ==> Build(argv, split).p.stages[i] == RunArgs(gs[i][0], gs[i][1..]))
  {
  }
}
