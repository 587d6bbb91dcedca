/**
 * `ForEachLine` of `old/util.go`: apply a per-item transform to each
 * argument or, when there are none, to each line read from standard input,
 * writing every result followed by a newline. The output stream is a
 * `Writer` that may refuse a write; standard input is the sequence of lines
 * the scanner yields together with how the scan ended.
 */
module LineMap {
  import opened Wrappers

  newtype byte = x: int | 0 <= x < 256

  const NL: byte := 10

  /** The error a refused write reports. */
  const ShortWrite: string := "short write"

  /** How much a writer accepts in total. */
  datatype Limit = Unbounded | AtMost(n: nat)

  /** Does a write of `n` bytes fit after `size` bytes already written? */
  predicate Fits(limit: Limit, size: nat, n: nat) {
    limit.Unbounded? || size + n <= limit.n
  }

  /** The output stream: a write either goes through whole or is refused and writes nothing. */
  class Writer {
    var data: seq<byte>
    const limit: Limit

    constructor (limit: Limit)
      ensures data == [] && this.limit == limit
    {
      data := [];
      this.limit := limit;
    }

    method Write(p: seq<byte>) returns (err: Option<string>)
      modifies this`data
      ensures Fits(limit, |old(data)|, |p|) ==> data == old(data) + p && err.None?
      ensures !Fits(limit, |old(data)|, |p|) ==> data == old(data) && err == Some(ShortWrite)
    {
      if Fits(limit, |data|, |p|) {
        data := data + p;
        err := None;
      } else {
        err := Some(ShortWrite);
      }
    }
  }

  /** The bytes a write leaves behind. */
  function Put(limit: Limit, data: seq<byte>, p: seq<byte>): seq<byte> {
    if Fits(limit, |data|, |p|) then data + p else data
  }

  /** How the scan of standard input ended (`scanner.Err()`). */
  datatype ScanEnd = Clean | Eof | Broken(message: string)

  /** The bytes written and the error returned. */
  datatype Outcome = Outcome(data: seq<byte>, err: Option<string>)

  type Transform = seq<byte> -> Result<seq<byte>, string>

  /**
   * The argument loop: a transform error or a refused write of the result
   * aborts; the newline's write error is ignored.
   */
  function PutArgs(limit: Limit, data: seq<byte>, args: seq<seq<byte>>, f: Transform): Outcome
    decreases |args|
  {
    if args == [] then Outcome(data, None)
    else
      match f(args[0])
      case Err(e) => Outcome(data, Some(e))
      case Ok(line) =>
        if !Fits(limit, |data|, |line|) then Outcome(data, Some(ShortWrite))
        else PutArgs(limit, Put(limit, data + line, [NL]), args[1..], f)
  }

  /** The input loop: a transform error aborts; write errors are ignored. */
  function PutLines(limit: Limit, data: seq<byte>, lines: seq<seq<byte>>, f: Transform): Outcome
    decreases |lines|
  {
    if lines == [] then Outcome(data, None)
    else
      match f(lines[0])
      case Err(e) => Outcome(data, Some(e))
      case Ok(line) => PutLines(limit, Put(limit, Put(limit, data, line), [NL]), lines[1..], f)
  }

  /** The specification of `ForEachLine`. */
  function ForEach(limit: Limit, data: seq<byte>, args: seq<seq<byte>>, lines: seq<seq<byte>>,
                   end: ScanEnd, f: Transform): Outcome
  {
    if |args| > 0 then PutArgs(limit, data, args, f)
    else
      var o := PutLines(limit, data, lines, f);
      if o.err.Some? then o
      else Outcome(o.data, if end.Broken? then Some(end.message) else None)
  }

  method ForEachLine(w: Writer, args: seq<seq<byte>>, lines: seq<seq<byte>>, end: ScanEnd, f: Transform)
    returns (err: Option<string>)
    modifies w
    ensures Outcome(w.data, err) == ForEach(w.limit, old(w.data), args, lines, end, f)
  {
    var i := 0;
    while i < |args|
      invariant 0 <= i <= |args|
      invariant PutArgs(w.limit, old(w.data), args, f) == PutArgs(w.limit, w.data, args[i..], f)
    {
      assert args[i..][0] == args[i] && args[i..][1..] == args[i + 1..];
      var r := f(args[i]);
      if r.Err? {
        return Some(r.error);
      }
      err := w.Write(r.value);
      if err.Some? {
        return err;
      }
      var _ := w.Write([NL]);
      i := i + 1;
    }
    if |args| > 0 {
      return None;
    }
    var j := 0;
    while j < |lines|
      invariant 0 <= j <= |lines|
      invariant PutLines(w.limit, old(w.data), lines, f) == PutLines(w.limit, w.data, lines[j..], f)
    {
      assert lines[j..][0] == lines[j] && lines[j..][1..] == lines[j + 1..];
      var r := f(lines[j]);
      if r.Err? {
        return Some(r.error);
      }
      var _ := w.Write(r.value);
      var _ := w.Write([NL]);
      j := j + 1;
    }
    if end.Broken? {
      return Some(end.message);
    }
    return None;
  }

  /** With arguments, standard input is never consulted. */
  lemma ArgsIgnoreInput(limit: Limit, data: seq<byte>, args: seq<seq<byte>>, f: Transform,
                        lines1: seq<seq<byte>>, end1: ScanEnd, lines2: seq<seq<byte>>, end2: ScanEnd)
    requires |args| > 0
    ensures ForEach(limit, data, args, lines1, end1, f) == ForEach(limit, data, args, lines2, end2, f)
  {
  }

  /** Every item succeeds under `f`. */
  predicate AllOk(items: seq<seq<byte>>, f: Transform) {
    forall i :: 0 <= i < |items| ==> f(items[i]).Ok?
  }

  /** Each item's result followed by a newline, in order. */
  function Emitted(items: seq<seq<byte>>, f: Transform): seq<byte>
    requires AllOk(items, f)
  {
    if items == [] then [] else f(items[0]).value + [NL] + Emitted(items[1..], f)
  }

  /** On a writer that refuses nothing, both loops behave alike. */
  lemma {:induction false} UnboundedLoopsAgree(data: seq<byte>, items: seq<seq<byte>>, f: Transform)
    ensures PutArgs(Unbounded, data, items, f) == PutLines(Unbounded, data, items, f)
    decreases |items|
  {
    if items != [] && f(items[0]).Ok? {
      UnboundedLoopsAgree(data + f(items[0]).value + [NL], items[1..], f);
    }
  }

  /** When every item succeeds and no write is refused, the output is each result and a newline, in order. */
  lemma {:induction false} AllWritten(data: seq<byte>, items: seq<seq<byte>>, f: Transform)
    requires AllOk(items, f)
    ensures PutLines(Unbounded, data, items, f) == Outcome(data + Emitted(items, f), None)
    decreases |items|
  {
    if items != [] {
      var line := f(items[0]).value;
      AllWritten(data + line + [NL], items[1..], f);
      assert data + line + [NL] + Emitted(items[1..], f) == data + (line + [NL] + Emitted(items[1..], f));
    }
  }

  /**
   * The first failing item ends the run with its error: what the items
   * before it wrote stays, nothing after it is processed.
   */
  lemma {:induction false} FirstFailureStops(data: seq<byte>, items: seq<seq<byte>>, k: nat, f: Transform)
    requires k < |items| && AllOk(items[..k], f) && f(items[k]).Err?
    ensures PutLines(Unbounded, data, items, f) == Outcome(data + Emitted(items[..k], f), Some(f(items[k]).error))
    decreases k
  {
    if k > 0 {
      var line := f(items[0]).value;
      assert items[..k][0] == items[0];
      assert items[1..][..k - 1] == items[..k][1..];
      FirstFailureStops(data + line + [NL], items[1..], k - 1, f);
      assert data + line + [NL] + Emitted(items[..k][1..], f) == data + (line + [NL] + Emitted(items[..k][1..], f));
    }
  }

  /**
   * Whatever the writer refuses, the input loop returns the first failing
   * item's error and never looks at the items after it.
   */
  lemma {:induction false} FirstFailureStopsAnyLimit(limit: Limit, data: seq<byte>, items: seq<seq<byte>>, k: nat, f: Transform)
    requires k < |items| && AllOk(items[..k], f) && f(items[k]).Err?
    ensures PutLines(limit, data, items, f).err == Some(f(items[k]).error)
    ensures PutLines(limit, data, items, f) == PutLines(limit, data, items[..k + 1], f)
    decreases k
  {
    assert items[..k + 1][0] == items[0] && items[..k + 1][1..] == items[1..][..k];
    if k > 0 {
      assert items[..k][0] == items[0];
      assert items[1..][..k - 1] == items[..k][1..];
      var line := f(items[0]).value;
      FirstFailureStopsAnyLimit(limit, Put(limit, Put(limit, data, line), [NL]), items[1..], k - 1, f);
    }
  }

  /**
   * The argument loop never looks past the first failing item either: it
   * stops there or at an earlier refused write.
   */
  lemma {:induction false} ArgsStopAtFirstFailure(limit: Limit, data: seq<byte>, items: seq<seq<byte>>, k: nat, f: Transform)
    requires k < |items| && f(items[k]).Err?
    ensures PutArgs(limit, data, items, f) == PutArgs(limit, data, items[..k + 1], f)
    ensures PutArgs(limit, data, items, f).err.Some?
    decreases k
  {
    assert items[..k + 1][0] == items[0] && items[..k + 1][1..] == items[1..][..k];
    if k > 0 && f(items[0]).Ok? && Fits(limit, |data|, |f(items[0]).value|) {
      var line := f(items[0]).value;
      ArgsStopAtFirstFailure(limit, Put(limit, data + line, [NL]), items[1..], k - 1, f);
    }
  }

  /** The number of newlines in a byte string. */
  function Newlines(bs: seq<byte>): nat {
    if bs == [] then 0 else (if bs[0] == NL then 1 else 0) + Newlines(bs[1..])
  }

  lemma {:induction false} NewlinesAppend(a: seq<byte>, b: seq<byte>)
    ensures Newlines(a + b) == Newlines(a) + Newlines(b)
  {
    if a == [] {
      assert a + b == b;
    } else {
      assert (a + b)[0] == a[0] && (a + b)[1..] == a[1..] + b;
      NewlinesAppend(a[1..], b);
    }
  }

  /** When no result holds a newline, exactly one newline is written per item. */
  lemma {:induction false} OneNewlinePerItem(items: seq<seq<byte>>, f: Transform)
    requires AllOk(items, f)
    requires forall i :: 0 <= i < |items| ==> NL !in f(items[i]).value
    ensures Newlines(Emitted(items, f)) == |items|
  {
    if items != [] {
      var line := f(items[0]).value;
      OneNewlinePerItem(items[1..], f);
      NewlinesAppend(line + [NL], Emitted(items[1..], f));
      NewlinesAppend(line, [NL]);
      NoNewlines(line);
    }
  }

  lemma {:induction false} NoNewlines(bs: seq<byte>)
    requires NL !in bs
    ensures Newlines(bs) == 0
  {
    if bs != [] {
      NoNewlines(bs[1..]);
    }
  }

  /** Whatever happens, bytes already written stay written. */
  lemma {:induction false} OutputOnlyGrows(limit: Limit, data: seq<byte>, args: seq<seq<byte>>,
                                           lines: seq<seq<byte>>, end: ScanEnd, f: Transform)
    ensures data <= ForEach(limit, data, args, lines, end, f).data
  {
    if |args| > 0 {
      ArgsGrow(limit, data, args, f);
    } else {
      LinesGrow(limit, data, lines, f);
    }
  }

  lemma {:induction false} ArgsGrow(limit: Limit, data: seq<byte>, args: seq<seq<byte>>, f: Transform)
    ensures data <= PutArgs(limit, data, args, f).data
    decreases |args|
  {
    if args != [] && f(args[0]).Ok? && Fits(limit, |data|, |f(args[0]).value|) {
      var next := Put(limit, data + f(args[0]).value, [NL]);
      ArgsGrow(limit, next, args[1..], f);
    }
  }

  lemma {:induction false} LinesGrow(limit: Limit, data: seq<byte>, lines: seq<seq<byte>>, f: Transform)
    ensures data <= PutLines(limit, data, lines, f).data
    decreases |lines|
  {
    if lines != [] && f(lines[0]).Ok? {
      var next := Put(limit, Put(limit, data, f(lines[0]).value), [NL]);
      LinesGrow(limit, next, lines[1..], f);
    }
  }

  /** Reading input, the only errors are the transform's: a refused write is never reported. */
  lemma {:induction false} InputErrorsAreTransformErrors(limit: Limit, data: seq<byte>, lines: seq<seq<byte>>, f: Transform)
    ensures PutLines(limit, data, lines, f).err.Some? ==>
      exists i :: 0 <= i < |lines| && f(lines[i]) == Err(PutLines(limit, data, lines, f).err.value)
    decreases |lines|
  {
    if lines != [] && f(lines[0]).Ok? {
      var next := Put(limit, Put(limit, data, f(lines[0]).value), [NL]);
      InputErrorsAreTransformErrors(limit, next, lines[1..], f);
      var o := PutLines(limit, next, lines[1..], f);
      if o.err.Some? {
        var i :| 0 <= i < |lines[1..]| && f(lines[1..][i]) == Err(o.err.value);
        assert lines[i + 1] == lines[1..][i];
      }
    }
  }

  /** A refused write of a result aborts the argument loop with that error. */
  lemma RefusedWriteAborts(limit: Limit, data: seq<byte>, args: seq<seq<byte>>, f: Transform)
    requires |args| > 0 && f(args[0]).Ok? && !Fits(limit, |data|, |f(args[0]).value|)
    ensures ForEach(limit, data, args, [], Clean, f) == Outcome(data, Some(ShortWrite))
  {
  }

  /** In the argument loop, a refused newline is ignored and the next argument is processed. */
  lemma RefusedNewlineIgnored(limit: Limit, data: seq<byte>, args: seq<seq<byte>>, f: Transform)
    requires |args| > 0 && f(args[0]).Ok?
    requires Fits(limit, |data|, |f(args[0]).value|) && !Fits(limit, |data| + |f(args[0]).value|, 1)
    ensures PutArgs(limit, data, args, f) == PutArgs(limit, data + f(args[0]).value, args[1..], f)
  {
  }

  /**
   * Whatever the writer refuses, an input loop that ends without a transform
   * error reports a scanner error, and end-of-file or a clean end as success.
   */
  lemma ScanErrorReportedAnyLimit(limit: Limit, data: seq<byte>, lines: seq<seq<byte>>, end: ScanEnd, f: Transform)
    requires PutLines(limit, data, lines, f).err.None?
    ensures ForEach(limit, data, [], lines, end, f) ==
      Outcome(PutLines(limit, data, lines, f).data, if end.Broken? then Some(end.message) else None)
  {
  }

  /** Every item succeeding, the input loop ends without a transform error, whatever the writer refuses. */
  lemma {:induction false} AllOkLinesSucceed(limit: Limit, data: seq<byte>, lines: seq<seq<byte>>, f: Transform)
    requires AllOk(lines, f)
    ensures PutLines(limit, data, lines, f).err.None?
    decreases |lines|
  {
    if lines != [] {
      var line := f(lines[0]).value;
      AllOkLinesSucceed(limit, Put(limit, Put(limit, data, line), [NL]), lines[1..], f);
    }
  }

  /** After a clean input loop, a scanner error is reported and end-of-file is not. */
  lemma ScanErrorReported(data: seq<byte>, lines: seq<seq<byte>>, end: ScanEnd, f: Transform)
    requires AllOk(lines, f)
    ensures ForEach(Unbounded, data, [], lines, end, f) ==
      Outcome(data + Emitted(lines, f), if end.Broken? then Some(end.message) else None)
  {
    AllWritten(data, lines, f);
  }
}
