/** The contract of g_converter_convert (gconverter.c) as an abstract, nondeterministic converter. */
module Converters {
  import opened BaseStreams

  datatype Outcome = Converted | Finished | Flushed | NoSpace | PartialInput | Failed {
    predicate IsError() { NoSpace? || PartialInput? || Failed? }
  }

  datatype Flag = NoFlag | InputAtEnd | FlushState

  /** A lack of input matters only where more could still come. */
  predicate Hopeless(outcome: Outcome, flag: Flag) {
    outcome == Failed || (outcome == PartialInput && flag != NoFlag)
  }

  /** Answers that the contract allows to any call. */
  predicate AlwaysLegal(outcome: Outcome) {
    outcome == Failed || outcome == PartialInput
  }

  /** The next call has its answer planned. */
  predicate Planned(script: seq<Outcome>) {
    script != [] && AlwaysLegal(script[0])
  }

  class Converter {
    const enough: nat               // NO_SPACE is only reported for less output space than this
    var consumed: seq<byte>         // all input taken so far
    var produced: seq<byte>         // all output given so far
    var finished: bool
    var sawEnd: bool                // whether InputAtEnd has been passed
    var failures: nat               // errors that no further input or space could avoid
    var stored: nat                 // bounds the calls that can produce without consuming
    var calls: nat                  // calls so far
    var flushed: bool               // the last call answered Flushed
    var script: seq<Outcome>        // answers to the next calls, free where they would break the contract

    constructor (enough: nat, script: seq<Outcome>)
      ensures this.enough == enough && consumed == [] && produced == [] && !finished && !sawEnd
      ensures this.script == script && failures == 0 && calls == 0
    {
      this.enough, this.script := enough, script;
      consumed, produced, finished, sawEnd, failures, stored := [], [], false, false, 0, 0;
      calls, flushed := 0, false;
    }

    /** The preconditions are the caller's side of the contract: some output space, no call after
        Finished, and no withdrawal of InputAtEnd.  An error consumes and produces nothing; anything
        else makes progress. */
    method Convert(input: seq<byte>, space: nat, flag: Flag)
      returns (outcome: Outcome, taken: nat, output: seq<byte>)
      requires space > 0 && !finished && (sawEnd ==> flag == InputAtEnd)
      modifies this
      ensures taken <= |input| && |output| <= space
      ensures consumed == old(consumed) + input[..taken] && produced == old(produced) + output
      ensures finished <==> outcome == Finished
      ensures sawEnd <==> old(sawEnd) || flag == InputAtEnd
      ensures outcome.IsError() ==> taken == 0 && output == [] && stored == old(stored)
      ensures outcome == Converted ==> taken > 0 || (output != [] && stored < old(stored))
      ensures outcome == NoSpace ==> space < enough
      ensures outcome == Flushed ==> flag == FlushState && taken == |input|
      ensures failures == old(failures) + if Hopeless(outcome, flag) then 1 else 0
      ensures calls == old(calls) + 1 && (flushed <==> outcome == Flushed)
      ensures Planned(old(script)) ==> outcome == old(script)[0] && script == old(script)[1..]
    {
      outcome, taken, output := Decide(input, space, flag);
      calls, flushed := calls + 1, outcome == Flushed;
      sawEnd := sawEnd || flag == InputAtEnd;
      if Hopeless(outcome, flag) { failures := failures + 1; }
      finished := outcome == Finished;
      consumed, produced := consumed + input[..taken], produced + output;
    }

    /** Any answer that the contract allows, following the script. */
    method Decide(input: seq<byte>, space: nat, flag: Flag)
      returns (outcome: Outcome, taken: nat, output: seq<byte>)
      modifies this`script, this`stored
      ensures taken <= |input| && |output| <= space
      ensures outcome.IsError() ==> taken == 0 && output == [] && stored == old(stored)
      ensures outcome == Converted ==> taken > 0 || (output != [] && stored < old(stored))
      ensures outcome == NoSpace ==> space < enough
      ensures outcome == Flushed ==> flag == FlushState && taken == |input|
      ensures Planned(old(script)) ==> outcome == old(script)[0] && script == old(script)[1..]
    {
      outcome, taken, output := *, *, *;
      if script != [] {
        outcome, script := script[0], script[1..];
      }
      if |output| > space || taken > |input| {
        taken, output := 0, [];
      }
      if outcome == Flushed {
        if flag == FlushState { taken := |input|; } else { outcome := Failed; }
      }
      if outcome == NoSpace && space >= enough { outcome := Failed; }
      if outcome == Converted && taken == 0 {
        if output == [] || stored == 0 { outcome := PartialInput; } else { stored := stored - 1; }
      }
      if outcome.IsError() {
        taken, output := 0, [];
      } else if taken > 0 {
        stored := *;
      }
    }
  }
}
