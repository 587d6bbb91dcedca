/**
 * The line assembler of `sh.go` (`unbreak`): script text is split on
 * newlines, and a raw line that STARTS with a backslash is a continuation:
 * its last character is dropped and what remains is carried in front of the
 * next ordinary line. A pending carry left at the end of the text is emitted
 * as a final logical line when it is not empty.
 */
module Lines {
  import opened Text

  /** A raw line led by a backslash continues into the next one. */
  predicate Continues(line: string) {
    |line| > 0 && line[0] == '\\'
  }

  /** The text a raw line contributes to its logical line. */
  function Contribution(line: string): string {
    if Continues(line) then line[..|line| - 1] else line
  }

  /**
   * The logical lines produced from the raw lines `lines` when `last` is
   * already pending: the specification of the loop in `unbreak`.
   */
  function Assemble(lines: seq<string>, last: string): seq<string>
  {
    if lines == [] then (if |last| > 0 then [last] else [])
    else if Continues(lines[0]) then Assemble(lines[1..], last + Contribution(lines[0]))
    else [last + lines[0]] + Assemble(lines[1..], "")
  }

  /** `unbreak`: the script's logical lines, in order. */
  method Unbreak(s: string) returns (cmds: seq<string>)
    ensures cmds == Assemble(Split(s, '\n'), "")
  {
    var lines := Split(s, '\n');
    cmds := [];
    var last := "";
    var i := 0;
    while i < |lines|
      invariant 0 <= i <= |lines|
      invariant cmds + Assemble(lines[i..], last) == Assemble(lines, "")
    {
      var line := lines[i];
      assert lines[i..][1..] == lines[i + 1..];
      if |line| > 0 && line[0] == '\\' {
        last := last + line[0..|line| - 1];
      } else if |last| > 0 {
        assert Assemble(lines[i..], last) == [last + line] + Assemble(lines[i + 1..], "");
        cmds := cmds + [last + line];
        last := "";
      } else {
        assert last + line == line;
        assert Assemble(lines[i..], last) == [line] + Assemble(lines[i + 1..], "");
        cmds := cmds + [line];
      }
      i := i + 1;
    }
    if |last| > 0 {
      cmds := cmds + [last];
    }
  }

  /** Without continuation lines the logical lines are exactly the raw lines. */
  lemma {:induction false} AssemblePlain(lines: seq<string>)
    requires forall i :: 0 <= i < |lines| ==> !Continues(lines[i])
    ensures Assemble(lines, "") == lines
  {
    if lines != [] {
      assert "" + lines[0] == lines[0];
      AssemblePlain(lines[1..]);
    }
  }

  /** A script without a backslash-led line is split on newlines and nothing else. */
  lemma UnbreakPlain(s: string)
    requires forall i :: 0 <= i < |Split(s, '\n')| ==> !Continues(Split(s, '\n')[i])
    ensures Assemble(Split(s, '\n'), "") == Split(s, '\n')
  {
    AssemblePlain(Split(s, '\n'));
  }

  /**
   * A continuation line is never emitted on its own: it loses its last
   * character, keeps its leading backslash, and is glued in front of the
   * next ordinary line.
   */
  lemma {:induction false} ContinuationJoinsNext(c: string, o: string, rest: seq<string>, last: string)
    requires Continues(c) && !Continues(o)
    ensures Assemble([c, o] + rest, last) == [last + c[..|c| - 1] + o] + Assemble(rest, "")
  {
    assert ([c, o] + rest)[1..] == [o] + rest;
    assert ([o] + rest)[1..] == rest;
  }

  /** A dangling continuation at the end of the text is kept when it leaves something. */
  lemma DanglingContinuation(c: string, last: string)
    requires Continues(c)
    ensures Assemble([c], last) == if |last| + |c| > 1 then [last + c[..|c| - 1]] else []
  {
    assert [c][1..] == [];
  }

  /** Never more logical lines than raw lines (plus one for a carried prefix). */
  lemma {:induction false} AssembleBound(lines: seq<string>, last: string)
    ensures |Assemble(lines, last)| <= |lines| + (if |last| > 0 then 1 else 0)
  {
    if lines != [] {
      if Continues(lines[0]) {
        AssembleBound(lines[1..], last + Contribution(lines[0]));
      } else {
        AssembleBound(lines[1..], "");
      }
    }
  }

  lemma UnbreakBound(s: string)
    ensures |Assemble(Split(s, '\n'), "")| <= |Split(s, '\n')|
  {
    AssembleBound(Split(s, '\n'), "");
  }

  function Contributions(lines: seq<string>): (r: seq<string>)
    ensures |r| == |lines|
    ensures forall i :: 0 <= i < |lines| ==> r[i] == Contribution(lines[i])
  {
    if lines == [] then [] else [Contribution(lines[0])] + Contributions(lines[1..])
  }

  /**
   * No content is lost or reordered: the logical lines, concatenated, are the
   * raw lines concatenated, with only the last character of each
   * backslash-led line removed.
   */
  lemma {:induction false} AssembleKeepsText(lines: seq<string>, last: string)
    ensures Concat(Assemble(lines, last)) == last + Concat(Contributions(lines))
  {
    if lines == [] {
    } else if Continues(lines[0]) {
      AssembleKeepsText(lines[1..], last + Contribution(lines[0]));
    } else {
      AssembleKeepsText(lines[1..], "");
      var rest := Assemble(lines[1..], "");
      assert ([last + lines[0]] + rest)[1..] == rest;
    }
  }

  lemma UnbreakKeepsText(s: string)
    ensures Concat(Assemble(Split(s, '\n'), "")) == Concat(Contributions(Split(s, '\n')))
  {
    AssembleKeepsText(Split(s, '\n'), "");
  }

  /**
   * The continuation marker is a LEADING backslash: a line that ends in a
   * backslash is an ordinary line and the next line stays separate.
   */
  lemma TrailingBackslashIsOrdinary()
    ensures Assemble(["echo a\\", "b"], "") == ["echo a\\", "b"]
  {
    AssemblePlain(["echo a\\", "b"]);
  }

  lemma LeadingBackslashJoins()
    ensures Assemble(["\\echo a ", "b"], "") == ["\\echo ab"]
  {
    var c := "\\echo a ";
    ContinuationJoinsNext(c, "b", [], "");
    assert ["\\echo a ", "b"] + [] == ["\\echo a ", "b"];
    assert "" + c[..|c| - 1] + "b" == "\\echo ab";
  }
}
