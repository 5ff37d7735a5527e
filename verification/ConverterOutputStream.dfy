/** gconverteroutputstream.c: writes to a base stream through a converter. */
module ConverterOutputStream {
  import opened Sequences
  import opened BaseStreams
  import opened ConverterBuffer
  import opened Converters

  datatype Cause = NoError | BaseFailed | ConvertFailed

  class ConverterOutput {
    const base: BaseOutput
    const converter: Converter
    const output: Buffer            // accepted, not yet converted
    const converted: Buffer         // converted, not yet written to the base stream
    var finished: bool

    /** Every byte produced by the converter has been written to the base stream or is still in the
        converted buffer, in order. */
    ghost predicate OutputSide()
      reads this, base, converter, converted, converted.data
    {
      converted.Valid() && converter.produced == base.written + converted.Contents()
    }

    ghost predicate Valid()
      reads this, base, converter, output, output.data, converted, converted.data
    {
      && output != converted && output.data != converted.data
      && output.Valid() && OutputSide()
      && finished == converter.finished
    }

    /** The bytes this stream has taken over: consumed by the converter, or still to be converted. */
    ghost function Taken(): seq<byte>
      requires output.Valid()
      reads this, converter, output, output.data
    {
      converter.consumed + output.Contents()
    }

    constructor (base: BaseOutput, converter: Converter)
      requires base.written == [] && converter.consumed == [] && converter.produced == [] && !converter.finished
      ensures Valid() && this.base == base && this.converter == converter && Taken() == []
      ensures fresh(output) && fresh(converted) && fresh(output.data) && fresh(converted.data)
    {
      this.base, this.converter := base, converter;
      var a := new Buffer();
      var b := new Buffer();
      output, converted := a, b;
      finished := false;
    }

    /** flush_buffer */
    method FlushBuffer() returns (ok: bool)
      requires OutputSide()
      modifies base, converted`start, converted`end
      ensures OutputSide() && (ok <==> converted.Size() == 0) && (old(converted.Size()) == 0 ==> ok)
      ensures base.failures == old(base.failures) + if ok then 0 else 1
    {
      if converted.Size() == 0 { return true; }
      var n;
      var bytes := converted.data[converted.start..converted.end];
      ok, n := base.WriteAll(bytes);
      converted.Consumed(n);
      SplitAt(old(base.written), bytes, n);
    }

    /** One call of the converter on `input`, into the space behind the converted bytes. */
    method ConvertSome(input: seq<byte>, flag: Flag) returns (outcome: Outcome, taken: nat)
      requires OutputSide() && converted.TailSpace() > 0
      requires !finished && !converter.finished && (converter.sawEnd ==> flag == InputAtEnd)
      modifies this`finished, converter, converted`end, converted.data
      ensures OutputSide()
      ensures taken <= |input| && converter.consumed == old(converter.consumed) + input[..taken]
      ensures finished == converter.finished == (outcome == Finished)
      ensures converter.sawEnd <==> old(converter.sawEnd) || flag == InputAtEnd
      ensures outcome.IsError() ==>
        taken == 0 && converter.stored == old(converter.stored) && converted.TailSpace() == old(converted.TailSpace())
      ensures outcome == Converted ==> taken > 0 || converter.stored < old(converter.stored)
      ensures outcome == Flushed ==> flag == FlushState && taken == |input|
      ensures outcome == NoSpace ==> old(converted.TailSpace()) < converter.enough
      ensures converter.failures == old(converter.failures) + if Hopeless(outcome, flag) then 1 else 0
      ensures outcome.IsError() ==> converted.Size() == old(converted.Size())
      ensures converter.calls == old(converter.calls) + 1 && (converter.flushed <==> outcome == Flushed)
      ensures Planned(old(converter.script)) ==>
        outcome == old(converter.script)[0] && converter.script == old(converter.script)[1..]
    {
      var bytes;
      outcome, taken, bytes := converter.Convert(input, converted.TailSpace(), flag);
      assert base.written + converted.Contents() + bytes == base.written + (converted.Contents() + bytes);
      converted.Received(bytes);
      finished := outcome == Finished;
    }

    /** "Ensure we have some target space" */
    method EnsureTail()
      requires OutputSide()
      modifies converted, converted.data
      ensures OutputSide() && (converted.data == old(converted.data) || fresh(converted.data))
      ensures converted.TailSpace() > 0 && converted.TailSpace() >= old(converted.TailSpace())
      ensures converted.Size() == old(converted.Size())
    {
      if converted.TailSpace() == 0 {
        converted.Grow();
      }
    }

    /** The reaction to NO_SPACE: a strictly larger tail. */
    method EnlargeTail()
      requires OutputSide()
      modifies converted, converted.data
      ensures OutputSide() && (converted.data == old(converted.data) || fresh(converted.data))
      ensures converted.TailSpace() > old(converted.TailSpace()) && converted.Size() == old(converted.Size())
    {
      converted.EnsureSpace(converted.data.Length + 1);
    }

    /** How far the tail is from a size that the converter never finds too small. */
    ghost function Missing(): nat
      requires converted.Valid()
      reads this, converter, converted
    {
      if converted.TailSpace() < converter.enough then converter.enough - converted.TailSpace() else 0
    }

    /** The conversion loop of write_internal: stops with the error that it could not handle, if any. */
    method ConvertAll(input: seq<byte>) returns (done: nat, stop: Outcome)
      requires OutputSide() && !finished && !converter.finished && !converter.sawEnd
      modifies this`finished, converter, converted, converted.data
      ensures OutputSide() && (converted.data == old(converted.data) || fresh(converted.data))
      ensures done <= |input| && converter.consumed == old(converter.consumed) + input[..done]
      ensures finished == converter.finished && !converter.sawEnd
      ensures stop == Converted || stop == PartialInput || stop == Failed
      ensures stop == Converted ==> finished || done == |input|
      ensures converter.failures == old(converter.failures) + if stop == Failed then 1 else 0
      ensures converter.calls >= old(converter.calls) + if input == [] then 0 else 1
      ensures input != [] && Planned(old(converter.script)) ==>
        (&& done == 0 && stop == old(converter.script)[0] && converter.script == old(converter.script)[1..]
         && !finished && converted.Size() == old(converted.Size()))
    {
      done, stop := 0, Converted;
      while !finished && done < |input|
        invariant OutputSide() && (converted.data == old(converted.data) || fresh(converted.data))
        invariant done <= |input| && converter.consumed == old(converter.consumed) + input[..done]
        invariant finished == converter.finished && !converter.sawEnd
        invariant converter.failures == old(converter.failures)
        invariant converter.calls >= old(converter.calls) && (converter.calls == old(converter.calls) ==> done == 0 && !finished)
        invariant Planned(old(converter.script)) ==>
          (&& done == 0 && converter.script == old(converter.script)
           && !finished && converted.Size() == old(converted.Size()))
        decreases !finished, |input| - done, converter.stored, Missing()
      {
        var outcome, taken := ConvertPass(input[done..]);
        if outcome == PartialInput || outcome == Failed {
          return done, outcome;
        }
        TakeMore(input, done, taken);
        done := done + taken;
      }
    }

    /** One pass of that loop: a conversion into some space, or a larger space. */
    method ConvertPass(input: seq<byte>) returns (outcome: Outcome, taken: nat)
      requires OutputSide() && !finished && !converter.finished && !converter.sawEnd
      modifies this`finished, converter, converted, converted.data
      ensures OutputSide() && (converted.data == old(converted.data) || fresh(converted.data))
      ensures taken <= |input| && converter.consumed == old(converter.consumed) + input[..taken]
      ensures finished == converter.finished == (outcome == Finished) && !converter.sawEnd
      ensures outcome.IsError() ==> taken == 0 && converted.Size() == old(converted.Size())
      ensures outcome == NoSpace ==> converter.stored == old(converter.stored) && Missing() < old(Missing())
      ensures outcome == Converted ==> taken > 0 || converter.stored < old(converter.stored)
      ensures outcome != Flushed && converter.calls == old(converter.calls) + 1
      ensures converter.failures == old(converter.failures) + if outcome == Failed then 1 else 0
      ensures Planned(old(converter.script)) ==>
        outcome == old(converter.script)[0] && converter.script == old(converter.script)[1..]
    {
      EnsureTail();
      outcome, taken := ConvertSome(input, NoFlag);
      if outcome == NoSpace {
        EnlargeTail();
      }
    }

    /** A call in which a conversion error would lose count: bytes of an earlier write still wait, and
        there is something to add to them. */
    ghost predicate AtRisk(data: seq<byte>)
      requires output.Valid()
      reads this, output
    {
      !finished && output.Size() > 0 && data != []
    }

    /** write_internal.  A successful write has taken over exactly the bytes it reports.  A failed one
        has taken nothing unless the call was at risk, and then a converter that fails at once makes
        it report nothing and keep everything. */
    method WriteBytes(data: seq<byte>) returns (n: int, cause: Cause)
      requires Valid() && !converter.sawEnd
      modifies this, base, converter, output, output.data, converted, converted.data
      ensures Valid() && !converter.sawEnd
      ensures output.data == old(output.data) || fresh(output.data)
      ensures converted.data == old(converted.data) || fresh(converted.data)
      ensures -1 <= n <= |data| && (n == -1 <==> cause != NoError)
      ensures Taken() == old(Taken()) + Kept(data, n, cause, old(output.Size()) > 0)
      ensures n == 0 ==> data == [] || finished
      ensures old(finished) ==> finished
      ensures base.failures >= old(base.failures) + if cause == BaseFailed then 1 else 0
      ensures converter.failures >= old(converter.failures) + if cause == ConvertFailed then 1 else 0
      ensures n == -1 && !old(AtRisk(data)) ==> Taken() == old(Taken())
      ensures old(output.Size()) == 0 && output.Size() > 0 ==> n == |data| && converter.consumed == old(converter.consumed)
      ensures converter.consumed != old(converter.consumed) && base.failures == old(base.failures) ==>
        base.written == converter.produced
      ensures !old(finished) && cause != BaseFailed && (data != [] || old(output.Size()) > 0) ==>
        converter.calls > old(converter.calls)
      ensures old(converted.Size()) == 0 ==> cause != BaseFailed
      ensures !old(finished) && data != [] && Planned(old(converter.script)) && cause != BaseFailed ==>
        (&& n == (if old(converter.script)[0] == Failed then -1 else |data|)
         && converter.script == old(converter.script)[1..] && !finished && converted.Size() == 0
         && (old(AtRisk(data)) || n >= 0 ==> Taken() == old(Taken()) + data && output.Size() > 0))
    {
      var ok := FlushBuffer();
      if !ok { return -1, BaseFailed; }
      if finished { return 0, NoError; }
      if output.Size() > 0 {
        n, cause := WriteBuffered(data);
      } else {
        n, cause := WriteDirect(data);
      }
    }

    /** The loss that a write at risk can suffer, on the smallest case: a partial character, then an
        error in the byte that completes it. */
    static method FailedWriteKeepsBytes(base: BaseOutput) returns (stream: ConverterOutput, first: int, second: int)
      requires base.written == []
      modifies base
      ensures fresh(stream) && stream.Valid()
      ensures first == 1 && second == -1 && stream.Taken() == [1, 2]
    {
      var converter := new Converter(0, [PartialInput, Failed]);
      stream := new ConverterOutput(base, converter);
      var cause;
      first, cause := stream.WriteBytes([1]);
      second, cause := stream.WriteBytes([2]);
      assert [1 as byte] + [2] == [1, 2];
    }

    /** Earlier bytes wait in the output buffer: append, and convert from there. */
    method WriteBuffered(data: seq<byte>) returns (n: int, cause: Cause)
      requires Valid() && !finished && !converter.sawEnd && output.Size() > 0
      modifies this`finished, base, converter, output, output.data, converted, converted.data
      ensures Valid() && !converter.sawEnd
      ensures output.data == old(output.data) || fresh(output.data)
      ensures converted.data == old(converted.data) || fresh(converted.data)
      ensures Taken() == old(Taken()) + data
      ensures converter.consumed != old(converter.consumed) && base.failures == old(base.failures) ==> converted.Size() == 0
      ensures converter.calls > old(converter.calls)
      ensures if n == -1 then cause == ConvertFailed else n == |data| && cause == NoError
      ensures converter.failures >= old(converter.failures) + if n == -1 then 1 else 0
      ensures base.failures >= old(base.failures)
      ensures Planned(old(converter.script)) ==>
        (&& n == (if old(converter.script)[0] == Failed then -1 else |data|)
         && converter.script == old(converter.script)[1..] && !finished
         && output.Size() > 0 && converted.Size() == old(converted.Size()))
    {
      n, cause := |data|, NoError;
      output.Append(data);
      assert Taken() == old(Taken()) + data by {
        ghost var waiting := old(output.Contents());
        assert converter.consumed + (waiting + data) == converter.consumed + waiting + data;
      }
      var done, stop := ConvertBuffered();
      if done == 0 && stop == Failed { return -1, ConvertFailed; }
      if done == 0 && stop == PartialInput { return; }
      var _ := FlushBuffer();
    }

    /** Converts what it can of the output buffer. */
    method ConvertBuffered() returns (done: nat, stop: Outcome)
      requires Valid() && !finished && !converter.sawEnd
      modifies this`finished, converter, output`start, output`end, converted, converted.data
      ensures Valid() && !converter.sawEnd && Taken() == old(Taken())
      ensures converter.failures >= old(converter.failures) + if stop == Failed then 1 else 0
      ensures done == 0 ==> converter.consumed == old(converter.consumed)
      ensures converter.calls >= old(converter.calls) + if old(output.Size()) == 0 then 0 else 1
      ensures converted.data == old(converted.data) || fresh(converted.data)
      ensures old(output.Size()) > 0 && Planned(old(converter.script)) ==>
        (&& done == 0 && stop == old(converter.script)[0] && converter.script == old(converter.script)[1..]
         && !finished && output.Size() > 0 && converted.Size() == old(converted.Size()))
    {
      var bytes := output.data[output.start..output.end];
      converted.EnsureSpace(|bytes|);
      done, stop := ConvertAll(bytes);
      SplitAt(old(converter.consumed), bytes, done);
      if done > 0 {
        output.Consumed(done);
      }
    }

    /** Nothing waits: convert directly from the caller's bytes. */
    method WriteDirect(data: seq<byte>) returns (n: int, cause: Cause)
      requires Valid() && !finished && !converter.sawEnd && output.Size() == 0
      modifies this`finished, base, converter, output, output.data, converted, converted.data
      ensures Valid() && !converter.sawEnd
      ensures output.data == old(output.data) || fresh(output.data)
      ensures converted.data == old(converted.data) || fresh(converted.data)
      ensures -1 <= n <= |data| && cause == if n == -1 then ConvertFailed else NoError
      ensures Taken() == old(Taken()) + if n == -1 then [] else data[..n]
      ensures converter.consumed != old(converter.consumed) && base.failures == old(base.failures) ==> converted.Size() == 0
      ensures output.Size() > 0 ==> n == |data| && converter.consumed == old(converter.consumed)
      ensures converter.calls >= old(converter.calls) + if data == [] then 0 else 1
      ensures converter.failures >= old(converter.failures) + if n == -1 then 1 else 0
      ensures base.failures >= old(base.failures)
      ensures data != [] && Planned(old(converter.script)) ==>
        (&& n == (if old(converter.script)[0] == Failed then -1 else |data|)
         && converter.script == old(converter.script)[1..] && !finished
         && (n >= 0 ==> output.Size() > 0) && converted.Size() == old(converted.Size()))
      ensures n == 0 ==> data == [] || finished
    {
      cause := NoError;
      converted.EnsureSpace(|data|);
      var done, stop := ConvertAll(data);
      if done == 0 && stop == Failed { return -1, ConvertFailed; }
      if done == 0 && stop == PartialInput {
        output.Append(data);
        return |data|, NoError;
      }
      n := done;
      var _ := FlushBuffer();
    }

    /** g_converter_output_stream_flush: on success everything taken over has gone through the
        converter to the base stream, unless the converter finished early; closing finishes it. */
    method Flush(isClosing: bool) returns (ok: bool)
      requires Valid() && (converter.sawEnd ==> isClosing)
      modifies this, base, converter, output, output.data, converted, converted.data
      ensures Valid() && Taken() == old(Taken()) && (converter.sawEnd ==> isClosing)
      ensures output.data == old(output.data)
      ensures converted.data == old(converted.data) || fresh(converted.data)
      ensures ok ==> base.written == converter.produced && (finished || output.Size() == 0)
      ensures ok && isClosing ==> finished && (old(finished) || converter.sawEnd)
      ensures ok ==> finished || converter.flushed
      ensures !ok ==> base.failures > old(base.failures) || converter.failures > old(converter.failures)
      ensures old(finished) ==> finished
      ensures base.failures >= old(base.failures) && converter.failures >= old(converter.failures)
    {
      ok := FlushBuffer();
      if !ok { return; }
      converted.EnsureSpace(1);
      ok := FlushLoop(isClosing);
      if !ok { return; }
      ok := FlushBuffer();
    }

    /** Its loop over the output buffer. */
    method FlushLoop(isClosing: bool) returns (ok: bool)
      requires Valid() && (converter.sawEnd ==> isClosing)
      modifies this`finished, converter, output`start, output`end, converted, converted.data
      ensures Valid() && Taken() == old(Taken()) && (converter.sawEnd ==> isClosing)
      ensures converted.data == old(converted.data) || fresh(converted.data)
      ensures ok ==> finished || (output.Size() == 0 && !isClosing && converter.flushed)
      ensures finished && isClosing ==> old(finished) || converter.sawEnd
      ensures converter.failures >= old(converter.failures) + if ok then 0 else 1
      ensures old(finished) ==> finished
    {
      var flushed := false;
      while !finished && !flushed
        invariant Valid() && Taken() == old(Taken()) && (converter.sawEnd ==> isClosing)
        invariant converted.data == old(converted.data) || fresh(converted.data)
        invariant flushed ==> output.Size() == 0 && !isClosing && converter.flushed
        invariant finished && isClosing ==> old(finished) || converter.sawEnd
        invariant converter.failures == old(converter.failures) && (old(finished) ==> finished)
        decreases !finished && !flushed, output.Size(), converter.stored, Missing()
      {
        var outcome := FlushPass(if isClosing then InputAtEnd else FlushState);
        if outcome == PartialInput || outcome == Failed { return false; }
        if !isClosing && outcome == Flushed {
          assert output.Size() == 0;
          flushed := true;
        }
      }
      ok := true;
    }

    /** One pass of that loop: a conversion into some space, or a larger space. */
    method FlushPass(flag: Flag) returns (outcome: Outcome)
      requires Valid() && !finished && flag != NoFlag && (converter.sawEnd ==> flag == InputAtEnd)
      modifies this`finished, converter, output`start, output`end, converted, converted.data
      ensures Valid() && Taken() == old(Taken()) && (finished <==> outcome == Finished)
      ensures converted.data == old(converted.data) || fresh(converted.data)
      ensures converter.sawEnd ==> flag == InputAtEnd
      ensures outcome == NoSpace ==>
        output.Size() == old(output.Size()) && converter.stored == old(converter.stored) && Missing() < old(Missing())
      ensures outcome == Converted ==>
        (|| output.Size() < old(output.Size())
         || (output.Size() == old(output.Size()) && converter.stored < old(converter.stored)))
      ensures outcome == Flushed ==> flag == FlushState && output.Size() == 0
      ensures (converter.flushed <==> outcome == Flushed) && (flag == InputAtEnd ==> converter.sawEnd)
      ensures converter.failures == old(converter.failures) + if Hopeless(outcome, flag) then 1 else 0
    {
      EnsureTail();
      outcome := ConvertOutput(flag);
      if outcome == NoSpace {
        EnlargeTail();
      }
    }

    /** One call of the converter on the output buffer. */
    method ConvertOutput(flag: Flag) returns (outcome: Outcome)
      requires Valid() && !finished && converted.TailSpace() > 0 && (converter.sawEnd ==> flag == InputAtEnd)
      modifies this`finished, converter, output`start, output`end, converted`end, converted.data
      ensures Valid() && Taken() == old(Taken()) && (finished <==> outcome == Finished)
      ensures converter.sawEnd ==> flag == InputAtEnd
      ensures outcome.IsError() ==> output.Size() == old(output.Size()) && converter.stored == old(converter.stored)
      ensures outcome == NoSpace ==>
        converted.TailSpace() == old(converted.TailSpace()) < converter.enough
      ensures outcome == Converted ==>
        (|| output.Size() < old(output.Size())
         || (output.Size() == old(output.Size()) && converter.stored < old(converter.stored)))
      ensures outcome == Flushed ==> flag == FlushState && output.Size() == 0
      ensures (converter.flushed <==> outcome == Flushed) && (flag == InputAtEnd ==> converter.sawEnd)
      ensures converter.failures == old(converter.failures) + if Hopeless(outcome, flag) then 1 else 0
    {
      var taken;
      var bytes := output.data[output.start..output.end];
      outcome, taken := ConvertSome(bytes, flag);
      SplitAt(old(converter.consumed), bytes, taken);
      output.Consumed(taken);
      assert output.Contents() == bytes[taken..];
    }

    ghost function Look(): View
      requires Valid()
      reads this, base, converter, output, output.data, converted, converted.data
    {
      View(Taken(), converter.consumed, finished, base.written == converter.produced,
           converted.Size() == 0 && (finished || output.Size() == 0), base.failures, converter.failures)
    }

    /** Any run of writes and flushes, closing at most at the end.  The bytes taken over are those each
        write kept, which are those reported unless the converter failed; a last flush or close that
        succeeds has put the whole output on the base stream, and closing has finished it. */
    method Run(ops: seq<Op>) returns (results: seq<OpResult>, ghost views: seq<View>)
      requires Valid() && !converter.sawEnd
      requires forall i :: 0 <= i < |ops| - 1 ==> ops[i] != Close
      modifies this, base, converter, output, output.data, converted, converted.data
      ensures Valid() && StreamRun(views, ops, results)
      ensures views[0] == old(Look()) && views[|ops|] == Look()
      ensures Taken() == old(Taken()) + KeptAll(ops, results, |ops|)
      ensures converter.failures == old(converter.failures) ==>
        Taken() == old(Taken()) + Reported(ops, results, |ops|)
      ensures |ops| > 0 && results[|ops| - 1] == FlushDone(true) ==>
        (&& base.written == converter.produced && (finished || Taken() == converter.consumed)
         && (ops[|ops| - 1] == Close ==> finished))
    {
      results, views := [], [Look()];
      for i := 0 to |ops|
        invariant Valid() && (i < |ops| ==> !converter.sawEnd)
        invariant output.data == old(output.data) || fresh(output.data)
        invariant converted.data == old(converted.data) || fresh(converted.data)
        invariant |results| == i && |views| == i + 1
        invariant views[0] == old(Look()) && views[i] == Look()
        invariant forall k :: 0 <= k < i ==> ViewStep(views[k], ops[k], results[k], views[k + 1])
      {
        var result := Perform(ops[i]);
        results, views := results + [result], views + [Look()];
      }
      TakenIsKept(views, ops, results, |ops|);
      TakenIsReported(views, ops, results, |ops|);
      assert |ops| > 0 ==> StepAt(views, ops, results, |ops| - 1);
    }

    /** One operation of a run. */
    method Perform(op: Op) returns (result: OpResult)
      requires Valid() && !converter.sawEnd
      modifies this, base, converter, output, output.data, converted, converted.data
      ensures Valid() && (op != Close ==> !converter.sawEnd)
      ensures output.data == old(output.data) || fresh(output.data)
      ensures converted.data == old(converted.data) || fresh(converted.data)
      ensures ViewStep(old(Look()), op, result, Look())
    {
      if op.Write? {
        var waiting := output.Size() > 0;
        var n, cause := WriteBytes(op.data);
        result := Wrote(n, cause, waiting);
      } else {
        var ok := Flush(op == Close);
        result := FlushDone(ok);
      }
    }
  }

  // ----- whole runs -----

  datatype Op = Write(data: seq<byte>) | FlushAll | Close

  /** What an operation returned; a write also tells whether earlier bytes were waiting. */
  datatype OpResult = Wrote(n: int, cause: Cause, waiting: bool) | FlushDone(ok: bool) {
    predicate Failure() {
      match this case Wrote(n, _, _) => n == -1 case FlushDone(ok) => !ok
    }
  }

  /** What matters of a stream between two operations: the bytes taken over, those of them that the
      converter has consumed, whether it has finished, whether all of its output is on the base stream,
      whether then nothing waits, and the failures of the base stream and of the converter. */
  datatype View = View(taken: seq<byte>, consumed: seq<byte>, finished: bool, written: bool, settled: bool,
                       baseFailures: nat, failures: nat)

  /** The bytes of a write that the stream keeps, given what it reported. */
  function Kept(data: seq<byte>, n: int, cause: Cause, hadBuffered: bool): seq<byte>
    requires -1 <= n <= |data|
  {
    if n >= 0 then data[..n] else if cause == ConvertFailed && hadBuffered then data else []
  }

  /** The counters never fall, and an operation that fails has raised the one it blames. */
  predicate FailStep(v: View, op: Op, r: OpResult, w: View) {
    && w.baseFailures >= v.baseFailures && w.failures >= v.failures
    && match r
       case Wrote(_, cause, _) =>
         && (cause == BaseFailed ==> w.baseFailures > v.baseFailures)
         && (cause == ConvertFailed ==> w.failures > v.failures)
       case FlushDone(ok) => ok || w.baseFailures > v.baseFailures || w.failures > v.failures
  }

  ghost predicate ViewStep(v: View, op: Op, r: OpResult, w: View) {
    && FailStep(v, op, r, w)
    && (v.finished ==> w.finished)
    && match op
       case Write(data) =>
         && r.Wrote? && -1 <= r.n <= |data| && (r.n == -1 <==> r.cause != NoError)
         && w.taken == v.taken + Kept(data, r.n, r.cause, r.waiting)
         && (r.n == 0 ==> data == [] || w.finished)
         && (w.consumed != v.consumed && w.baseFailures == v.baseFailures ==> w.written)
         && (v.settled && !v.finished ==> !r.waiting)
       case FlushAll => r.FlushDone? && w.taken == v.taken && (r.ok ==> w.settled)
       case Close => r.FlushDone? && w.taken == v.taken && (r.ok ==> w.settled && w.finished)
  }

  ghost predicate StepAt(views: seq<View>, ops: seq<Op>, results: seq<OpResult>, i: nat)
    requires i < |ops| == |results| && |views| == |ops| + 1
  {
    ViewStep(views[i], ops[i], results[i], views[i + 1])
  }

  ghost predicate StreamRun(views: seq<View>, ops: seq<Op>, results: seq<OpResult>) {
    && |results| == |ops| && |views| == |ops| + 1
    && (forall i :: 0 <= i < |ops| ==> StepAt(views, ops, results, i))
  }

  /** The bytes that the first k operations reported as written, in order. */
  function Reported(ops: seq<Op>, results: seq<OpResult>, k: nat): seq<byte>
    requires k <= |ops| == |results|
  {
    if k == 0 then [] else Reported(ops, results, k - 1) + ReportedBy(ops[k - 1], results[k - 1])
  }

  function ReportedBy(op: Op, r: OpResult): seq<byte> {
    if op.Write? && r.Wrote? && 0 <= r.n <= |op.data| then op.data[..r.n] else []
  }

  /** The bytes that the first k operations kept, in order. */
  function KeptAll(ops: seq<Op>, results: seq<OpResult>, k: nat): seq<byte>
    requires k <= |ops| == |results|
  {
    if k == 0 then [] else KeptAll(ops, results, k - 1) + KeptBy(ops[k - 1], results[k - 1])
  }

  function KeptBy(op: Op, r: OpResult): seq<byte> {
    if op.Write? && r.Wrote? && -1 <= r.n <= |op.data| then Kept(op.data, r.n, r.cause, r.waiting) else []
  }

  lemma {:induction false} TakenIsKept(views: seq<View>, ops: seq<Op>, results: seq<OpResult>, k: nat)
    requires StreamRun(views, ops, results) && k <= |ops|
    ensures views[k].taken == views[0].taken + KeptAll(ops, results, k)
  {
    if k > 0 {
      var i := k - 1;
      TakenIsKept(views, ops, results, i);
      assert StepAt(views, ops, results, i);
      SplitTaken(views[0].taken, KeptAll(ops, results, i), KeptBy(ops[i], results[i]));
    }
  }

  /** As long as the converter does not fail, the bytes taken over are exactly those reported. */
  lemma {:induction false} TakenIsReported(views: seq<View>, ops: seq<Op>, results: seq<OpResult>, k: nat)
    requires StreamRun(views, ops, results) && k <= |ops|
    ensures views[0].failures <= views[k].failures
    ensures views[0].failures == views[k].failures ==>
      views[k].taken == views[0].taken + Reported(ops, results, k)
  {
    if k > 0 {
      var i := k - 1;
      TakenIsReported(views, ops, results, i);
      assert StepAt(views, ops, results, i);
      SplitTaken(views[0].taken, Reported(ops, results, i), ReportedBy(ops[i], results[i]));
    }
  }

  /** A run without any failure of the base stream or the converter has no failing operation. */
  lemma {:induction false} Untroubled(views: seq<View>, ops: seq<Op>, results: seq<OpResult>, k: nat)
    requires StreamRun(views, ops, results) && k <= |ops|
    ensures views[0].failures <= views[k].failures && views[0].baseFailures <= views[k].baseFailures
    ensures views[0].failures == views[k].failures && views[0].baseFailures == views[k].baseFailures ==>
      forall i :: 0 <= i < k ==> !results[i].Failure()
  {
    if k > 0 {
      Untroubled(views, ops, results, k - 1);
      assert StepAt(views, ops, results, k - 1);
    }
  }

  lemma SplitTaken(a: seq<byte>, b: seq<byte>, c: seq<byte>)
    ensures a + b + c == a + (b + c)
  {
  }

  lemma TakeMore(input: seq<byte>, done: nat, taken: nat)
    requires done + taken <= |input|
    ensures input[..done + taken] == input[..done] + input[done..][..taken]
  {
  }
}
