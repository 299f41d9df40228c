/** The per-item loop shared by every node: `handleApiError` and
    `formatReturnData` (nodes/ElevenLabs/utils.ts) and the specification of the
    `execute` loop over the input items. */
module Items {
  import opened Wrappers
  import opened Json
  import opened Host
  import opened Request

  const UnknownErrorMessage := "Erro desconhecido"

  /** `formatReturnData(response, itemIndex)`. */
  function FormatReturnData(response: Value, itemIndex: nat): (r: OutputItem)
    ensures r.json == response && r.pairedItem == itemIndex && r.binary == map[]
  {
    OutputItem(response, map[], itemIndex)
  }

  /** The error item `{json: {error: msg}, pairedItem: {item: i}}` with `msg` given. */
  function ErrorItem(msg: string, itemIndex: nat): OutputItem
  {
    OutputItem(Obj(map["error" := Str(msg)]), map[], itemIndex)
  }

  /** `handleApiError(error, itemIndex)`: under continue-on-fail an error item
      whose message falls back to 'Erro desconhecido' when empty; otherwise the
      same error is thrown again. */
  function HandleApiError(error: Error, itemIndex: nat, continueOnFail: bool): (r: Result<OutputItem, Error>)
    ensures r.Success? <==> continueOnFail
    ensures r.Failure? ==> r.error == error
    ensures r.Success? ==> r.value.pairedItem == itemIndex && r.value.binary == map[]
    ensures r.Success? ==> r.value.json.Obj? && r.value.json.fields.Keys == {"error"}
    ensures r.Success? ==> error.message != "" ==> r.value.json.fields["error"] == Str(error.message)
    ensures r.Success? ==> error.message == "" ==> r.value.json.fields["error"] == Str(UnknownErrorMessage)
  {
    if continueOnFail then
      Success(ErrorItem(if error.message != "" then error.message else UnknownErrorMessage, itemIndex))
    else
      Failure(error)
  }

  /** How a node's catch block reports an error under continue-on-fail: through
      `handleApiError`, or inline with `error.message` as it is. */
  datatype ErrorReport = ViaHandleApiError | InlineMessage

  function Catch(report: ErrorReport, error: Error, itemIndex: nat, continueOnFail: bool): (r: Result<OutputItem, Error>)
    ensures r.Success? <==> continueOnFail
    ensures r.Failure? ==> r.error == error
    ensures r.Success? ==> r.value.pairedItem == itemIndex && r.value.binary == map[]
    ensures r.Success? ==> r.value.json.Obj? && "error" in r.value.json.fields
    ensures report == ViaHandleApiError ==> r == HandleApiError(error, itemIndex, continueOnFail)
    ensures r.Success? && report == InlineMessage ==> r.value.json == Obj(map["error" := Str(error.message)])
  {
    match report
    case ViaHandleApiError => HandleApiError(error, itemIndex, continueOnFail)
    case InlineMessage =>
      if continueOnFail then Success(ErrorItem(error.message, itemIndex)) else Failure(error)
  }

  /** What handling one item did: the request it sent to the API (none when it
      failed before the call) and its output item or the error it raised. */
  datatype Step = Step(request: Option<RequestOptions>, outcome: Result<OutputItem, Error>)

  /** The state of the loop: the output so far and the error that stopped it. */
  datatype Run = Run(out: seq<OutputItem>, thrown: Option<Error>)

  /** The loop `for (i = 0; i < items.length; i++) try {...} catch {...}` after
      the given steps: successes are pushed, failures pass through the catch
      block, and a rethrown error ends the loop. */
  function Process(steps: seq<Step>, continueOnFail: bool, report: ErrorReport): (r: Run)
    ensures |r.out| <= |steps|
    decreases |steps|
  {
    if steps == [] then Run([], None)
    else
      var k := |steps| - 1;
      var prev := Process(steps[..k], continueOnFail, report);
      if prev.thrown.Some? then prev
      else
        match steps[k].outcome
        case Success(o) => Run(prev.out + [o], None)
        case Failure(e) =>
          var caught := Catch(report, e, k, continueOnFail);
          if caught.Success? then Run(prev.out + [caught.value], None) else Run(prev.out, Some(e))
  }

  /** The requests sent to the API, in order. */
  function Sent(steps: seq<Step>): seq<RequestOptions>
  {
    if steps == [] then []
    else
      var k := |steps| - 1;
      Sent(steps[..k]) + (if steps[k].request.Some? then [steps[k].request.value] else [])
  }

  /** The output item (or thrown error) that one step contributes, in isolation. */
  function Reported(s: Step, k: nat, continueOnFail: bool, report: ErrorReport): Result<OutputItem, Error>
  {
    match s.outcome
    case Success(o) => Success(o)
    case Failure(e) => Catch(report, e, k, continueOnFail)
  }

  /** One more step of the loop, unfolded. */
  lemma ProcessSnoc(steps: seq<Step>, s: Step, continueOnFail: bool, report: ErrorReport)
    requires Process(steps, continueOnFail, report).thrown.None?
    ensures var prev := Process(steps, continueOnFail, report);
            var r := Reported(s, |steps|, continueOnFail, report);
            Process(steps + [s], continueOnFail, report)
              == if r.Success? then Run(prev.out + [r.value], None) else Run(prev.out, Some(r.error))
  {
    assert (steps + [s])[..|steps|] == steps;
  }

  /** The catch block of the loop body: push the item's output, or push the
      error item, or stop with the error, keeping `Process` in step with the
      loop's state. */
  method Absorb(steps: seq<Step>, out: seq<OutputItem>, s: Step, continueOnFail: bool, report: ErrorReport)
    returns (steps': seq<Step>, out': seq<OutputItem>, thrown: Option<Error>)
    requires Process(steps, continueOnFail, report) == Run(out, None)
    ensures steps' == steps + [s]
    ensures Process(steps', continueOnFail, report) == Run(out', thrown)
  {
    ProcessSnoc(steps, s, continueOnFail, report);
    steps' := steps + [s];
    match s.outcome {
      case Success(o) =>
        out', thrown := out + [o], None;
      case Failure(e) =>
        var caught := Catch(report, e, |steps|, continueOnFail);
        if caught.Failure? {
          out', thrown := out, Some(caught.error);
        } else {
          out', thrown := out + [caught.value], None;
        }
    }
  }

  /** With continue-on-fail the loop never stops: one output per item, in
      order, each the item's own output or its error item. */
  lemma {:induction false} ContinueOnFailKeepsEveryItem(steps: seq<Step>, report: ErrorReport)
    ensures Process(steps, true, report).thrown.None?
    ensures |Process(steps, true, report).out| == |steps|
    ensures forall k :: 0 <= k < |steps| ==>
              Reported(steps[k], k, true, report) == Success(Process(steps, true, report).out[k])
    decreases |steps|
  {
    if steps != [] {
      var k := |steps| - 1;
      ContinueOnFailKeepsEveryItem(steps[..k], report);
      ProcessSnoc(steps[..k], steps[k], true, report);
      assert steps[..k] + [steps[k]] == steps;
    }
  }

  /** Without continue-on-fail the loop stops at the first failure f: exactly
      the outputs of items 0..f-1 and the error of item f. */
  lemma {:induction false} FailFastStopsAtFirstFailure(steps: seq<Step>, f: nat, report: ErrorReport)
    requires f < |steps| && steps[f].outcome.Failure?
    requires forall k :: 0 <= k < f ==> steps[k].outcome.Success?
    ensures Process(steps, false, report).thrown == Some(steps[f].outcome.error)
    ensures |Process(steps, false, report).out| == f
    ensures forall k :: 0 <= k < f ==> Process(steps, false, report).out[k] == steps[k].outcome.value
    decreases |steps|
  {
    var k := |steps| - 1;
    if f < k {
      FailFastStopsAtFirstFailure(steps[..k], f, report);
    } else {
      AllSucceed(steps[..k], false, report);
      ProcessSnoc(steps[..k], steps[k], false, report);
      assert steps[..k] + [steps[k]] == steps;
    }
  }

  /** When every item succeeds the error policy plays no part: the outputs are
      the items' own, in order. */
  lemma {:induction false} AllSucceed(steps: seq<Step>, continueOnFail: bool, report: ErrorReport)
    requires forall k :: 0 <= k < |steps| ==> steps[k].outcome.Success?
    ensures Process(steps, continueOnFail, report).thrown.None?
    ensures |Process(steps, continueOnFail, report).out| == |steps|
    ensures forall k :: 0 <= k < |steps| ==> Process(steps, continueOnFail, report).out[k] == steps[k].outcome.value
    decreases |steps|
  {
    if steps != [] {
      var k := |steps| - 1;
      AllSucceed(steps[..k], continueOnFail, report);
      ProcessSnoc(steps[..k], steps[k], continueOnFail, report);
      assert steps[..k] + [steps[k]] == steps;
    }
  }

  /** A thrown error is the error of a failed item under fail-fast, never under
      continue-on-fail; the loop throws iff some item failed without it. */
  lemma {:induction false} ThrowsOnlyFailFast(steps: seq<Step>, continueOnFail: bool, report: ErrorReport)
    ensures Process(steps, continueOnFail, report).thrown.Some? <==>
            !continueOnFail && exists k :: 0 <= k < |steps| && steps[k].outcome.Failure?
    decreases |steps|
  {
    if continueOnFail {
      ContinueOnFailKeepsEveryItem(steps, report);
    } else if exists k :: 0 <= k < |steps| && steps[k].outcome.Failure? {
      var f := FirstFailure(steps);
      FailFastStopsAtFirstFailure(steps, f, report);
    } else {
      AllSucceed(steps, continueOnFail, report);
    }
  }

  /** A run that throws at its last step, and not before, attempted exactly the
      items up to the first failure: the last step is that failure, every
      earlier step succeeded, and continue-on-fail was off. */
  lemma ThrowEndsAtFirstFailure(steps: seq<Step>, continueOnFail: bool, report: ErrorReport)
    requires |steps| > 0 && Process(steps, continueOnFail, report).thrown.Some?
    requires Process(steps[..|steps| - 1], continueOnFail, report).thrown.None?
    ensures !continueOnFail
    ensures steps[|steps| - 1].outcome.Failure?
    ensures forall k :: 0 <= k < |steps| - 1 ==> steps[k].outcome.Success?
  {
    var last := |steps| - 1;
    var prefix := steps[..last];
    ProcessSnoc(prefix, steps[last], continueOnFail, report);
    assert prefix + [steps[last]] == steps;
    ThrowsOnlyFailFast(steps, continueOnFail, report);
    ThrowsOnlyFailFast(prefix, continueOnFail, report);
    forall k | 0 <= k < last
      ensures steps[k].outcome.Success?
    {
      assert prefix[k] == steps[k];
    }
  }

  /** The index of the first failed step. */
  lemma FirstFailure(steps: seq<Step>) returns (f: nat)
    requires exists k :: 0 <= k < |steps| && steps[k].outcome.Failure?
    ensures f < |steps| && steps[f].outcome.Failure?
    ensures forall k :: 0 <= k < f ==> steps[k].outcome.Success?
  {
    f := 0;
    while steps[f].outcome.Success?
      invariant f < |steps|
      invariant forall k :: 0 <= k < f ==> steps[k].outcome.Success?
      invariant exists k :: f <= k < |steps| && steps[k].outcome.Failure?
      decreases |steps| - f
    {
      f := f + 1;
    }
  }

  /** Outputs stay paired with their position whenever every successful item
      is paired with its own index, under either policy. */
  lemma {:induction false} PairedInOrder(steps: seq<Step>, continueOnFail: bool, report: ErrorReport)
    requires forall k :: 0 <= k < |steps| && steps[k].outcome.Success? ==> steps[k].outcome.value.pairedItem == k
    ensures forall k :: 0 <= k < |Process(steps, continueOnFail, report).out| ==>
              Process(steps, continueOnFail, report).out[k].pairedItem == k
    ensures Process(steps, continueOnFail, report).thrown.None? ==> |Process(steps, continueOnFail, report).out| == |steps|
    decreases |steps|
  {
    if steps != [] {
      var k := |steps| - 1;
      PairedInOrder(steps[..k], continueOnFail, report);
      if Process(steps[..k], continueOnFail, report).thrown.None? {
        ProcessSnoc(steps[..k], steps[k], continueOnFail, report);
        assert steps[..k] + [steps[k]] == steps;
        var r := Reported(steps[k], k, continueOnFail, report);
        assert r.Success? ==> r.value.pairedItem == k;
      } else {
        assert Process(steps, continueOnFail, report) == Process(steps[..k], continueOnFail, report);
      }
    }
  }
}
