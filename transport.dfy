/**
 * `runCode`: turning what the tracer script handed back into the
 * `ExecutionTrace` the page works with, and what that makes of a traced
 * program that raises.
 */
module Transport {
  import opened Common
  import opened Tracking
  import opened Tracing

  /** `ExecutionTrace`: the steps, and at most one of an error text and the needs-input flag. */
  datatype ExecutionTrace = ExecutionTrace(steps: seq<Step>, error: Option<string>, needsInput: Option<bool>)

  /** Whether a step is the one the script's `except Exception` handler appends. */
  predicate IsErrorStep(s: Step) {
    StartsWith(s.explanation, "Error:")
  }

  /** The page's view of one script result. */
  function Delivered(result: ScriptResult): (t: ExecutionTrace)
    ensures t.error.Some? <==>
              result.Propagated?
              || (|result.steps| > 0 && IsErrorStep(result.steps[|result.steps| - 1]))
              || (|result.steps| == 0 && !result.needsInput)
    ensures t.error.Some? ==> t.needsInput.None?
    ensures t.error.None? ==> t.steps == result.steps && t.needsInput == Some(result.needsInput)
    ensures result.Output? && t.error.Some? && |result.steps| > 0 ==>
              t.steps + [result.steps[|result.steps| - 1]] == result.steps
              && t.error == Some(result.steps[|result.steps| - 1].explanation)
    ensures result.Propagated? ==>
              t == ExecutionTrace([], Some(if result.message == "" then "Execution failed" else result.message), None)
    ensures result.Output? && |result.steps| == 0 && !result.needsInput ==>
              t == ExecutionTrace([], Some("No execution steps captured."), None)
  {
    match result
    case Propagated(message) =>
      ExecutionTrace([], Some(if message == "" then "Execution failed" else message), None)
    case Output(steps, needsInput) =>
      if |steps| > 0 && IsErrorStep(steps[|steps| - 1]) then
        ExecutionTrace(steps[..|steps| - 1], Some(steps[|steps| - 1].explanation), None)
      else if |steps| == 0 && !needsInput then
        ExecutionTrace([], Some("No execution steps captured."), None)
      else
        ExecutionTrace(steps, None, Some(needsInput))
  }

  /** `runCode` after the script has run: pop a trailing error step, or flag an empty trace. */
  method RunCode(result: ScriptResult) returns (t: ExecutionTrace)
    ensures t == Delivered(result)
  {
    if result.Propagated? {
      // the `catch` around the Pyodide call
      t := ExecutionTrace([], Some(if result.message == "" then "Execution failed" else result.message), None);
      return;
    }
    var steps := result.steps;
    if |steps| > 0 && StartsWith(steps[|steps| - 1].explanation, "Error:") {
      var errorStep := steps[|steps| - 1];
      steps := steps[..|steps| - 1];
      t := ExecutionTrace(steps, Some(errorStep.explanation), None);
      return;
    }
    if |steps| == 0 && !result.needsInput {
      t := ExecutionTrace([], Some("No execution steps captured."), None);
      return;
    }
    t := ExecutionTrace(steps, None, Some(result.needsInput));
  }

  lemma LineTextIsNotError(line: int)
    ensures !StartsWith(LineText(line), "Error:")
  {
    assert LineText(line)[0] == 'L';
  }

  /**
   * As written, a traced program that raises is reported as an error only
   * when the `finally` block takes no final snapshot: when no frame of the
   * program ever started, or the step budget is already spent. Otherwise the
   * final "Line N" step follows the error step and the page sees a normal
   * trace with the error step inside it.
   */
  lemma RaisedReportedOnlyWithoutFinalSnapshot(maxSteps: int, inputs: seq<string>, run: GuestRun)
    requires RunOk(run) && run.ending.Raised?
    requires !Stalls(|inputs|, run.events)
    ensures var st := Prefix(maxSteps, inputs, run.events);
            var t := Delivered(Script(maxSteps, inputs, run));
            && (t.error.Some? <==> st.lastFrame.None? || st.stepCount >= maxSteps)
            && (t.error.Some? ==> t.error == Some("Error: " + run.ending.message) && t.steps == st.trace)
  {
    var st := Prefix(maxSteps, inputs, run.events);
    if st.lastFrame.Some? && st.stepCount < maxSteps {
      RaisedWithFinalSnapshot(maxSteps, inputs, run);
    } else {
      RaisedWithoutFinalSnapshot(maxSteps, inputs, run);
    }
  }

  /** The error step's text starts with `Error:`. */
  lemma ErrorStepIsError(message: string, stdout: string)
    ensures IsErrorStep(ErrorStep(message, stdout))
  {
    assert ("Error: " + message)[..6] == "Error:";
  }

  /** When `finally` snapshots the last frame, the error step is not last and goes unreported. */
  lemma RaisedWithFinalSnapshot(maxSteps: int, inputs: seq<string>, run: GuestRun)
    requires RunOk(run) && run.ending.Raised?
    requires !Stalls(|inputs|, run.events)
    requires Prefix(maxSteps, inputs, run.events).lastFrame.Some?
    requires Prefix(maxSteps, inputs, run.events).stepCount < maxSteps
    ensures Delivered(Script(maxSteps, inputs, run)).error.None?
  {
    InputsConsumedInOrder(maxSteps, inputs, run.events);
    var st := Prefix(maxSteps, inputs, run.events);
    var err := ErrorStep(run.ending.message, run.finalStdout);
    var f := run.exitViews[st.lastFrame.value];
    var last := CaptureStep(Some(f), run.finalStdout, st.log);
    LineTextIsNotError(f.lineNo);
    assert Script(maxSteps, inputs, run).steps == st.trace + [err] + [last];
  }

  /** Without a final snapshot the error step is last and is reported with exactly the earlier steps. */
  lemma RaisedWithoutFinalSnapshot(maxSteps: int, inputs: seq<string>, run: GuestRun)
    requires RunOk(run) && run.ending.Raised?
    requires !Stalls(|inputs|, run.events)
    requires var st := Prefix(maxSteps, inputs, run.events);
             st.lastFrame.None? || st.stepCount >= maxSteps
    ensures var t := Delivered(Script(maxSteps, inputs, run));
            t.error == Some("Error: " + run.ending.message) && t.steps == Prefix(maxSteps, inputs, run.events).trace
  {
    InputsConsumedInOrder(maxSteps, inputs, run.events);
    var st := Prefix(maxSteps, inputs, run.events);
    var err := ErrorStep(run.ending.message, run.finalStdout);
    ErrorStepIsError(run.ending.message, run.finalStdout);
    assert Script(maxSteps, inputs, run).steps == st.trace + [err];
    assert (st.trace + [err])[..|st.trace|] == st.trace;
  }

  /** The smallest program that shows it: one line that raises, run with the default budget. */
  function OneLineFrame(): FrameView {
    FrameView(0, true, 1, [], map[])
  }

  function OneLineRun(message: string): GuestRun {
    GuestRun([Call(OneLineFrame()), Line(OneLineFrame(), "")], Raised(message), map[0 := OneLineFrame()], "")
  }

  lemma RaisedOneLinerNotReported(message: string)
    ensures RunOk(OneLineRun(message))
    ensures var t := Delivered(Script(1000, [], OneLineRun(message)));
            && t.error.None? && t.needsInput == Some(false) && |t.steps| == 3
            && t.steps[1].explanation == "Error: " + message
  {
    var run := OneLineRun(message);
    var f := OneLineFrame();
    assert CalledIds(run.events) == {0} by {
      assert run.events[0].Call? && run.events[0].frame.id == 0;
    }
    assert InputCount(run.events) == 0 by {
      assert run.events[..1][..0] == [];
    }
    RaisedReportedOnlyWithoutFinalSnapshot(1000, [], run);
    var st := Prefix(1000, [], run.events);
    assert run.events[..1] == [Call(f)];
    assert run.events[..1][..0] == [];
    assert Prefix(1000, [], run.events[..1]).lastFrame == Some(0);
    assert st.stepCount == 1;
  }

  /**
   * The evidently intended `finally` block: the final snapshot is taken only
   * when the program neither waits for input nor raised.
   */
  function FinishReportingErrors(maxSteps: int, run: GuestRun, st: RunState): ScriptResult
    requires RunOk(run)
    requires st.lastFrame.Some? ==> st.lastFrame.value in CalledIds(run.events)
  {
    if st.needsInput then Output(st.trace, true)
    else if run.ending.Raised? then Output(st.trace + [ErrorStep(run.ending.message, run.finalStdout)], false)
    else
      var afterFinally := if st.lastFrame.Some? then Record(maxSteps, st, run.exitViews[st.lastFrame.value], run.finalStdout)
                          else st;
      if run.ending.Escaped? then Propagated(run.ending.message) else Output(afterFinally.trace, false)
  }

  function ScriptReportingErrors(maxSteps: int, inputs: seq<string>, run: GuestRun): ScriptResult
    requires RunOk(run)
  {
    FinishReportingErrors(maxSteps, run, Prefix(maxSteps, inputs, run.events))
  }

  /**
   * With the corrected `finally` block, every program that raises is reported
   * with its error text, after exactly the steps recorded before it; any other
   * run is unchanged.
   */
  lemma RaisedAlwaysReported(maxSteps: int, inputs: seq<string>, run: GuestRun)
    requires RunOk(run)
    ensures run.ending.Raised? && !Stalls(|inputs|, run.events) ==>
              Delivered(ScriptReportingErrors(maxSteps, inputs, run)) ==
              ExecutionTrace(Prefix(maxSteps, inputs, run.events).trace, Some("Error: " + run.ending.message), None)
    ensures !run.ending.Raised? ==> ScriptReportingErrors(maxSteps, inputs, run) == Script(maxSteps, inputs, run)
  {
    InputsConsumedInOrder(maxSteps, inputs, run.events);
    var st := Prefix(maxSteps, inputs, run.events);
    if run.ending.Raised? && !st.needsInput {
      var err := ErrorStep(run.ending.message, run.finalStdout);
      assert ("Error: " + run.ending.message)[..6] == "Error:";
      assert (st.trace + [err])[..|st.trace|] == st.trace;
    }
  }
}
