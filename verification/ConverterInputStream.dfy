/** gconverterinputstream.c: reads a base stream through a converter. */
module ConverterInputStream {
  import opened Sequences
  import opened BaseStreams
  import opened ConverterBuffer
  import opened Converters

  class ConverterInput {
    const base: BaseInput
    const converter: Converter
    const input: Buffer             // read from the base stream, not yet converted
    const converted: Buffer         // converted, not yet delivered
    var atInputEnd: bool
    var finished: bool
    var needInput: bool
    ghost var delivered: seq<byte>

    /** Every byte read from the base stream has been consumed by the converter or is still in the
        input buffer, in order; and what the stream believes of the converter is true. */
    ghost predicate InputSide()
      reads this, base, converter, input, input.data
    {
      && input.Valid()
      && base.offset <= |base.content|
      && base.content[..base.offset] == converter.consumed + input.Contents()
      && finished == converter.finished
      && atInputEnd == base.endReported
      && (converter.sawEnd ==> atInputEnd)
      && (atInputEnd ==> base.offset == |base.content|)
    }

    /** Every byte produced by the converter has been delivered or is still in the converted buffer. */
    ghost predicate OutputSide()
      reads this, converter, converted, converted.data
    {
      converted.Valid() && converter.produced == delivered + converted.Contents()
    }

    ghost predicate Valid()
      reads this, base, converter, input, input.data, converted, converted.data
    {
      && input != converted && input.data != converted.data
      && InputSide() && OutputSide()
    }

    constructor (base: BaseInput, converter: Converter)
      requires base.offset == 0 && !base.endReported && converter.consumed == [] && converter.produced == []
      requires !converter.finished && !converter.sawEnd
      ensures Valid() && this.base == base && this.converter == converter && delivered == []
      ensures fresh(input) && fresh(converted) && fresh(input.data) && fresh(converted.data)
    {
      this.base, this.converter := base, converter;
      var a := new Buffer();
      var b := new Buffer();
      input, converted := a, b;
      atInputEnd, finished, needInput, delivered := false, false, false, [];
    }

    /** fill_input_buffer, with the caller's reaction to the end of the base stream. */
    method FillInput(atLeast: nat) returns (n: int)
      requires Valid() && !atInputEnd && atLeast > input.Size()
      modifies this`atInputEnd, this`needInput, base, input, input.data
      ensures Valid() && delivered == old(delivered) && finished == old(finished)
      ensures input.data == old(input.data) || fresh(input.data)
      ensures -1 <= n && base.offset == old(base.offset) + (if n == -1 then 0 else n)
      ensures atInputEnd <==> n == 0
      ensures n <= 0 ==> input.Contents() == old(input.Contents())
      ensures base.failures == old(base.failures) + if n == -1 then 1 else 0
      ensures needInput == (old(needInput) && n <= 0)
      ensures |base.requests| == |old(base.requests)| + 1 && old(base.requests) <= base.requests
      ensures base.requests[|old(base.requests)|] >= atLeast - old(input.Size())
    {
      input.EnsureSpace(atLeast);
      var bytes;
      n, bytes := base.Read(input.TailSpace());
      if n > 0 {
        InputGrows(base.content, base.offset - n, converter.consumed, input.Contents(), bytes);
        input.Received(bytes);
        needInput := false;
      }
      if n == 0 {
        atInputEnd := true;
      }
    }

    /** One call of the converter on the input buffer, into `space` bytes of output. */
    method ConvertInput(space: nat) returns (outcome: Outcome, output: seq<byte>)
      requires InputSide() && !finished && space > 0
      modifies this`finished, converter, input`start, input`end
      ensures InputSide() && |output| <= space && (finished <==> outcome == Finished)
      ensures converter.sawEnd <==> atInputEnd
      ensures converter.calls == old(converter.calls) + 1
      ensures converter.produced == old(converter.produced) + output
      ensures outcome.IsError() ==> output == [] && input.Contents() == old(input.Contents())
      ensures outcome == Converted && output == [] ==> input.Size() < old(input.Size())
      ensures outcome == NoSpace ==> space < converter.enough
      ensures outcome != Flushed
      ensures converter.failures == old(converter.failures) +
        if outcome == Failed || (outcome == PartialInput && atInputEnd) then 1 else 0
    {
      var taken;
      var bytes := input.data[input.start..input.end];
      outcome, taken, output := converter.Convert(bytes, space, if atInputEnd then InputAtEnd else NoFlag);
      input.Consumed(taken);
      SplitAt(old(converter.consumed), bytes, taken);
      finished := outcome == Finished;
    }

    /** The conversion loop of read_internal, into the converted buffer.  It ends because every pass
        but the last reads from the base stream, or learns that it has ended, or consumes buffered
        input, or enlarges the output buffer. */
    method ConvertLoop(count: nat) returns (n: int, bytes: seq<byte>)
      requires Valid() && !finished && count > 0 && converted.Size() == 0
      modifies this, base, converter, input, input.data, converted, converted.data
      ensures Valid() && delivered == old(delivered) + bytes
      ensures n >= 0 && converted.Size() > 0 ==> n == count
      ensures old(base.requests) <= base.requests
      ensures -1 <= n <= count && |bytes| == (if n == -1 then 0 else n)
      ensures n == 0 ==> finished && converted.Size() == 0
      ensures Failures() >= old(Failures()) + if n == -1 then 1 else 0
      ensures input.data == old(input.data) || fresh(input.data)
      ensures converted.data == old(converted.data) || fresh(converted.data)
    {
      converted.EnsureSpace(count);
      bytes := [];
      while true
        invariant Valid() && !finished && converted.Size() == 0 && converted.TailSpace() > 0
        invariant delivered == old(delivered) && bytes == []
        invariant base.failures >= old(base.failures) && converter.failures >= old(converter.failures)
        invariant old(base.requests) <= base.requests
        invariant input.data == old(input.data) || fresh(input.data)
        invariant converted.data == old(converted.data) || fresh(converted.data)
        decreases |base.content| - base.offset, !atInputEnd, input.Size(), converter.enough - converted.data.Length
      {
        var outcome;
        outcome, bytes := ConvertThrough(count);
        if !outcome.IsError() {
          n := |bytes|;
          if n == 0 && outcome != Finished { continue; }   // consumed without producing
          assert finished || n > 0;
          return;
        }
        var retry := Recover(outcome);
        if !retry { return -1, []; }
      }
    }

    /** One call of the converter into the empty converted buffer, handing out what the caller wants. */
    method ConvertThrough(count: nat) returns (outcome: Outcome, bytes: seq<byte>)
      requires Valid() && !finished && count > 0 && converted.Size() == 0 && converted.TailSpace() > 0
      modifies this`finished, this`delivered, converter, input`start, input`end
      modifies converted`start, converted`end, converted.data
      ensures Valid() && delivered == old(delivered) + bytes && |bytes| <= count
      ensures converted.Size() > 0 ==> |bytes| == count
      ensures finished <==> outcome == Finished
      ensures bytes == [] ==> converted.Size() == 0 && converted.TailSpace() == old(converted.TailSpace())
      ensures outcome.IsError() ==> bytes == [] && input.Size() == old(input.Size())
      ensures outcome == Converted && bytes == [] ==> input.Size() < old(input.Size())
      ensures outcome == NoSpace ==> converted.data.Length < converter.enough
      ensures outcome != Flushed && converter.calls == old(converter.calls) + 1
      ensures converter.failures == old(converter.failures) +
        if outcome == Failed || (outcome == PartialInput && atInputEnd) then 1 else 0
    {
      var output;
      outcome, output := ConvertInput(converted.TailSpace());
      bytes := DeliverThrough(count, output);
    }

    /** The converter has written `output` into the empty converted buffer; hand out what fits. */
    method DeliverThrough(count: nat, output: seq<byte>) returns (bytes: seq<byte>)
      requires converted.Valid() && converted.Size() == 0 && |output| <= converted.TailSpace()
      requires converter.produced == delivered + output
      modifies this`delivered, converted`start, converted`end, converted.data
      ensures OutputSide() && delivered == old(delivered) + bytes
      ensures |bytes| == if count < |output| then count else |output|
      ensures converted.Size() == |output| - |bytes|
      ensures output == [] ==> converted.TailSpace() == old(converted.TailSpace())
    {
      converted.Received(output);
      var n := if count < converted.Size() then count else converted.Size();
      bytes := converted.Take(n);
      SplitAt(delivered, output, n);
      delivered := delivered + bytes;
    }

    /** Reacts to a conversion error: more input, more space, or giving up. */
    method Recover(outcome: Outcome) returns (retry: bool)
      requires Valid() && !finished && outcome.IsError()
      requires converted.Size() == 0 && converted.TailSpace() > 0
      modifies this`atInputEnd, this`needInput, base, input, input.data, converted, converted.data
      ensures Valid() && !finished && delivered == old(delivered)
      ensures converted.Size() == 0 && converted.TailSpace() > 0
      ensures input.data == old(input.data) || fresh(input.data)
      ensures converted.data == old(converted.data) || fresh(converted.data)
      ensures base.failures >= old(base.failures)
      ensures base.failures > old(base.failures) ==> needInput
      ensures old(base.requests) <= base.requests
      ensures outcome == PartialInput && !old(atInputEnd) ==>
        |base.requests| > |old(base.requests)| && base.requests[|old(base.requests)|] >= 4096
      ensures !retry ==>
        base.failures > old(base.failures) || outcome == Failed || (outcome == PartialInput && old(atInputEnd))
      ensures retry ==>
        || base.offset > old(base.offset)
        || (base.offset == old(base.offset) && atInputEnd && !old(atInputEnd))
        || (&& outcome == NoSpace && base.offset == old(base.offset) && atInputEnd == old(atInputEnd)
            && input.Size() == old(input.Size()) && converted.data.Length > old(converted.data.Length))
    {
      if outcome == PartialInput && !atInputEnd {
        var n := FillInput(input.Size() + 4096);
        if n < 0 { needInput := true; }
        return n >= 0;
      }
      if outcome == NoSpace {
        converted.EnsureSpace(converted.data.Length + 1);
      }
      retry := outcome == NoSpace;
    }

    /** read_internal, for a read of at least one byte.  Converted bytes that are waiting are always
        handed out; if they do not suffice the converter gets one chance to add to them, and the base
        stream is read only if there were none. */
    method ReadBytes(count: nat) returns (n: int, bytes: seq<byte>)
      requires Valid() && count > 0
      modifies this, base, converter, input, input.data, converted, converted.data
      ensures Valid() && delivered == old(delivered) + bytes
      ensures n >= 0 && converted.Size() > 0 ==> n == count
      ensures old(finished) ==> finished && converter.produced == old(converter.produced)
      ensures -1 <= n <= count && |bytes| == (if n == -1 then 0 else n)
      ensures n == 0 ==> finished && converted.Size() == 0
      ensures Failures() >= old(Failures()) + if n == -1 then 1 else 0
      ensures old(converted.Size()) > 0 ==>
        (&& n >= Min(count, old(converted.Size())) && base.requests == old(base.requests)
         && (old(converted.Size()) >= count || old(finished) ==> converter.calls == old(converter.calls))
         && (old(converted.Size()) < count && !old(finished) ==> converter.calls == old(converter.calls) + 1))
      ensures input.data == old(input.data) || fresh(input.data)
      ensures converted.data == old(converted.data) || fresh(converted.data)
    {
      var available := converted.Size();
      if available > 0 && count <= available {
        bytes := TakeConverted(count);
        return count, bytes;
      }
      var head := TakeConverted(available);
      n, bytes := ReadMore(count - available, available > 0);
      bytes := head + bytes;
      if n >= 0 { n := |bytes|; }
    }

    /** The rest of a read, once the converted buffer is empty: directly into the caller's buffer if
        possible, and if that gives nothing and nothing was read before, through the loop. */
    method ReadMore(count: nat, gotSome: bool) returns (n: int, bytes: seq<byte>)
      requires Valid() && count > 0 && converted.Size() == 0
      modifies this, base, converter, input, input.data, converted, converted.data
      ensures Valid() && delivered == old(delivered) + bytes
      ensures n >= 0 && converted.Size() > 0 ==> n == count
      ensures old(finished) ==> finished && converter.produced == old(converter.produced)
      ensures -1 <= n <= count && |bytes| == (if n == -1 then 0 else n)
      ensures gotSome ==> n >= 0
      ensures n == 0 && !gotSome ==> finished && converted.Size() == 0
      ensures gotSome ==> base.requests == old(base.requests)
      ensures old(input.Size()) == 0 && !gotSome && !old(atInputEnd) ==>
        |base.requests| > |old(base.requests)| && base.requests[|old(base.requests)|] >= count
      ensures gotSome ==> converter.calls == old(converter.calls) + if old(finished) then 0 else 1
      ensures Failures() >= old(Failures()) + if n == -1 then 1 else 0
      ensures input.data == old(input.data) || fresh(input.data)
      ensures converted.data == old(converted.data) || fresh(converted.data)
    {
      n, bytes := 0, [];
      if input.Size() == 0 && !gotSome && !atInputEnd {
        n := FillInput(count);
        if n < 0 { return; }
      }
      var failed := false;
      if !finished {
        bytes, failed := ConvertDirect(count);
      }
      n := |bytes|;
      if failed && !gotSome { return -1, []; }
      if bytes != [] || gotSome || finished { return; }
      n, bytes := ConvertLoop(count);
    }

    /** Converts straight into the caller's buffer.  A lack of input or space is not a failure. */
    method ConvertDirect(count: nat) returns (bytes: seq<byte>, failed: bool)
      requires Valid() && !finished && count > 0 && converted.Size() == 0
      modifies this`finished, this`delivered, converter, input`start, input`end
      ensures Valid() && delivered == old(delivered) + bytes && |bytes| <= count
      ensures failed ==> bytes == [] && converter.failures > old(converter.failures)
      ensures converter.failures >= old(converter.failures) && converter.calls == old(converter.calls) + 1
    {
      var outcome, output := ConvertInput(count);
      delivered := delivered + output;
      return output, outcome == Failed;
    }

    ghost function Failures(): nat
      reads base, converter
    {
      base.failures + converter.failures
    }

    ghost function Look(): View
      requires Valid()
      reads this, base, converter, input, input.data, converted, converted.data
    {
      View(delivered, converted.Size(), finished && converted.Size() == 0, Failures())
    }

    /** Any sequence of reads delivers, joined, a prefix of what the converter produced from a prefix of
        the base content.  Once a read has returned 0 everything has been delivered, and a read fails
        only by a failure during it. */
    method ReadMany(counts: seq<nat>) returns (results: seq<ReadResult>, ghost views: seq<View>)
      requires Valid() && forall i :: 0 <= i < |counts| ==> counts[i] > 0
      modifies this, base, converter, input, input.data, converted, converted.data
      ensures Valid() && ReadRun(views, counts, results)
      ensures views[0] == old(Look()) && views[|counts|] == Look()
      ensures converter.consumed <= base.content && delivered <= converter.produced
      ensures delivered == old(delivered) + Joined(results, |results|)
      ensures forall i :: 0 <= i < |results| && results[i].n == 0 ==> finished && delivered == converter.produced
    {
      results, views := [], [Look()];
      for i := 0 to |counts|
        invariant Valid() && |results| == i && |views| == i + 1
        invariant views[0] == old(Look()) && views[i] == Look()
        invariant forall k :: 0 <= k < i ==> ViewStep(views[k], counts[k], results[k], views[k + 1])
        invariant input.data == old(input.data) || fresh(input.data)
        invariant converted.data == old(converted.data) || fresh(converted.data)
      {
        var n, bytes := ReadBytes(counts[i]);
        results, views := results + [ReadResult(n, bytes)], views + [Look()];
      }
      DeliveredIsJoined(views, counts, results, |counts|);
      ZeroIsTheEnd(views, counts, results, |counts|);
      PrefixOfContent();
    }

    lemma PrefixOfContent()
      requires Valid()
      ensures converter.consumed <= base.content && delivered <= converter.produced
    {
      assert converter.consumed <= base.content[..base.offset] <= base.content;
    }

    /** Delivers from the converted buffer. */
    method TakeConverted(count: nat) returns (bytes: seq<byte>)
      requires OutputSide() && count <= converted.Size()
      modifies this`delivered, converted`start, converted`end
      ensures OutputSide() && delivered == old(delivered) + bytes && |bytes| == count
      ensures converted.Size() == old(converted.Size()) - count
    {
      SplitAt(delivered, converted.Contents(), count);
      bytes := converted.Take(count);
      delivered := delivered + bytes;
    }
  }

  // ----- whole runs -----

  /** What a read returned. */
  datatype ReadResult = ReadResult(n: int, bytes: seq<byte>)

  /** What matters of a stream between two reads. */
  datatype View = View(delivered: seq<byte>, waiting: nat, drained: bool, failures: nat)

  function Min(a: int, b: int): int { if a < b then a else b }

  /** A read of `count` bytes delivers what it returns, and at least what was waiting; it fails only by a failure of the base stream or
      the converter, returns 0 only when all has been delivered, and nothing comes after that. */
  ghost predicate ViewStep(v: View, count: nat, r: ReadResult, w: View) {
    && -1 <= r.n <= count && |r.bytes| == (if r.n == -1 then 0 else r.n)
    && w.delivered == v.delivered + r.bytes
    && (v.waiting > 0 ==> r.n >= Min(count, v.waiting))
    && w.failures >= v.failures + (if r.n == -1 then 1 else 0)
    && (r.n == 0 || v.drained ==> w.drained)
    && (v.drained ==> r.n <= 0)
  }

  ghost predicate StepAt(views: seq<View>, counts: seq<nat>, results: seq<ReadResult>, i: nat)
    requires i < |counts| == |results| && |views| == |counts| + 1
  {
    ViewStep(views[i], counts[i], results[i], views[i + 1])
  }

  ghost predicate ReadRun(views: seq<View>, counts: seq<nat>, results: seq<ReadResult>) {
    && |results| == |counts| && |views| == |counts| + 1
    && (forall i :: 0 <= i < |counts| ==> StepAt(views, counts, results, i))
  }

  /** What the first k reads returned, in order. */
  function Joined(results: seq<ReadResult>, k: nat): seq<byte>
    requires k <= |results|
  {
    if k == 0 then [] else Joined(results, k - 1) + results[k - 1].bytes
  }

  lemma {:induction false} DeliveredIsJoined(views: seq<View>, counts: seq<nat>, results: seq<ReadResult>, k: nat)
    requires ReadRun(views, counts, results) && k <= |counts|
    ensures views[k].delivered == views[0].delivered + Joined(results, k)
  {
    if k > 0 {
      var i := k - 1;
      DeliveredIsJoined(views, counts, results, i);
      assert StepAt(views, counts, results, i);
      var start, before := views[0].delivered, Joined(results, i);
      assert start + before + results[i].bytes == start + (before + results[i].bytes);
    }
  }

  /** After a read that returned 0 the stream stays drained. */
  lemma {:induction false} ZeroIsTheEnd(views: seq<View>, counts: seq<nat>, results: seq<ReadResult>, k: nat)
    requires ReadRun(views, counts, results) && k <= |counts|
    ensures forall i :: 0 <= i < k && results[i].n == 0 ==> views[k].drained
  {
    if k > 0 {
      ZeroIsTheEnd(views, counts, results, k - 1);
      assert StepAt(views, counts, results, k - 1);
    }
  }

  /** Reads without any failure of the base stream or the converter all succeed. */
  lemma {:induction false} Untroubled(views: seq<View>, counts: seq<nat>, results: seq<ReadResult>, k: nat)
    requires ReadRun(views, counts, results) && k <= |counts|
    ensures views[0].failures <= views[k].failures
    ensures views[0].failures == views[k].failures ==> forall i :: 0 <= i < k ==> results[i].n != -1
  {
    if k > 0 {
      Untroubled(views, counts, results, k - 1);
      assert StepAt(views, counts, results, k - 1);
    }
  }

  lemma InputGrows(content: seq<byte>, k: nat, consumed: seq<byte>, waiting: seq<byte>, bytes: seq<byte>)
    requires k <= |content| && content[..k] == consumed + waiting && IsAt(content, k, bytes) && bytes != []
    ensures content[..k + |bytes|] == consumed + (waiting + bytes)
  {
    assert content[..k + |bytes|] == content[..k] + content[k..k + |bytes|];
  }
}
