/**
 * The application state of App.tsx: the trace of the last run, the selected
 * step, the inputs replayed into the program and the selected editor line,
 * with the handlers that change them and the values derived from them.
 *
 * A run of the program (`runCode(code, maxSteps, inputs)`, awaited) is the
 * parameter `run`: for a step limit and a list of inputs it either returns a
 * trace or throws with a message. The code being run is fixed for one use of
 * the handlers and is folded into `run`.
 */
module AppState {
  import opened Common
  import opened Tracing
  import opened Transport
  import opened Controls

  /** What awaiting `runCode(...)` produces: a trace, or a thrown error's message. */
  datatype Outcome = Returned(trace: ExecutionTrace) | Threw(message: string)

  /** The message `handleRun` shows for a thrown error: `error.message || "An unexpected error occurred."`. */
  function FailureText(message: string): (r: string)
    ensures |r| > 0
    ensures |message| > 0 ==> r == message
  {
    if |message| > 0 then message else "An unexpected error occurred."
  }

  /** `trace?.steps.length || 0` */
  function TotalOf(trace: Option<ExecutionTrace>): (n: nat)
    ensures trace.None? ==> n == 0
    ensures trace.Some? ==> n == |trace.value.steps|
  {
    match trace
    case None => 0
    case Some(t) => |t.steps|
  }

  /** The index Next moves to: `Math.min(prev + 1, (trace?.steps.length || 1) - 1)`. */
  function NextIndex(i: int, total: nat): (j: int)
    ensures total > 0 ==> j == if i + 1 < total - 1 then i + 1 else total - 1
    ensures total == 0 ==> j == if i + 1 < 0 then i + 1 else 0
  {
    var last := (if total == 0 then 1 else total) - 1;
    if i + 1 < last then i + 1 else last
  }

  /** The index Prev moves to: `Math.max(prev - 1, 0)`. */
  function PrevIndex(i: int): (j: int)
    ensures j >= 0 && (j == 0 || j == i - 1)
    ensures i >= 1 ==> j == i - 1
  {
    if i - 1 > 0 then i - 1 else 0
  }

  /**
   * The indices of the steps run at `line`, in ascending order
   * (`steps.map((step, idx) => ...).filter(...).map(item => item.idx)`).
   */
  function StepsAtLine(steps: seq<Step>, line: int): (r: seq<nat>)
    ensures forall k :: 0 <= k < |r| ==> r[k] < |steps| && steps[r[k]].line == line
    ensures forall i :: 0 <= i < |steps| && steps[i].line == line ==> i in r
    ensures forall k, m :: 0 <= k < m < |r| ==> r[k] < r[m]
  {
    if |steps| == 0 then []
    else
      var before := StepsAtLine(steps[..|steps| - 1], line);
      if steps[|steps| - 1].line == line then before + [|steps| - 1] else before
  }

  class App {
    var trace: Option<ExecutionTrace>
    var stepIndex: int
    var userInputs: seq<string>
    var selectedLine: Option<int>
    var maxSteps: int

    /** The number of steps the controls are given. */
    function Total(): nat
      reads this
    {
      TotalOf(trace)
    }

    /**
     * What every handler keeps: the index is never below -1, and whenever the
     * trace has steps the index selects one of them.
     */
    predicate Valid()
      reads this
    {
      stepIndex >= -1 && (Total() > 0 ==> 0 <= stepIndex < Total())
    }

    /** The state the page starts in (the initial `useState` values). */
    constructor ()
      ensures trace == None && stepIndex == -1 && userInputs == [] && selectedLine == None && maxSteps == 1000
      ensures Valid()
    {
      trace := None;
      stepIndex := -1;
      userInputs := [];
      selectedLine := None;
      maxSteps := 1000;
    }

    /** `currentStep`: the selected step, when the index is inside the trace. */
    function CurrentStep(): (s: Option<Step>)
      reads this
      ensures s.Some? <==> trace.Some? && 0 <= stepIndex < |trace.value.steps|
      ensures s.Some? ==> s.value == trace.value.steps[stepIndex]
    {
      if trace.Some? && 0 <= stepIndex < |trace.value.steps| then Some(trace.value.steps[stepIndex]) else None
    }

    /** `prevStep`: the step before the selected one, when both are inside the trace. */
    function PrevStep(): (s: Option<Step>)
      reads this
      ensures s.Some? <==> trace.Some? && 0 < stepIndex < |trace.value.steps|
      ensures s.Some? ==> s.value == trace.value.steps[stepIndex - 1]
    {
      if trace.Some? && 0 < stepIndex < |trace.value.steps| then Some(trace.value.steps[stepIndex - 1]) else None
    }

    /** `highlightedSteps`: the steps at the selected line; none without a trace or a selection. */
    function HighlightedSteps(): (r: seq<nat>)
      reads this
      ensures trace.None? || selectedLine.None? ==> r == []
      ensures trace.Some? && selectedLine.Some? ==> r == StepsAtLine(trace.value.steps, selectedLine.value)
    {
      if trace.None? || selectedLine.None? then [] else StepsAtLine(trace.value.steps, selectedLine.value)
    }

    /** The Next button (`onNext`). */
    method OnNext()
      requires Valid()
      modifies this
      ensures stepIndex == NextIndex(old(stepIndex), old(Total()))
      ensures !NextDisabled(old(stepIndex), old(Total())) ==>
                CurrentStep().Some? && PrevStep() == old(CurrentStep())
      ensures trace == old(trace) && userInputs == old(userInputs)
      ensures selectedLine == old(selectedLine) && maxSteps == old(maxSteps)
      ensures Valid()
    {
      stepIndex := NextIndex(stepIndex, Total());
    }

    /** The Prev button (`onPrev`). */
    method OnPrev()
      requires Valid()
      modifies this
      ensures stepIndex == PrevIndex(old(stepIndex))
      ensures old(PrevStep()).Some? ==> CurrentStep() == old(PrevStep())
      ensures trace == old(trace) && userInputs == old(userInputs)
      ensures selectedLine == old(selectedLine) && maxSteps == old(maxSteps)
      ensures Valid()
    {
      stepIndex := PrevIndex(stepIndex);
    }

    /** The Reset button (`onReset`): back to the first step. */
    method OnReset()
      requires Valid()
      modifies this
      ensures stepIndex == 0
      ensures trace == old(trace) && userInputs == old(userInputs)
      ensures selectedLine == old(selectedLine) && maxSteps == old(maxSteps)
      ensures Valid()
    {
      stepIndex := 0;
    }

    /** The slider (`onSeek`), which only offers positions between 0 and its upper end. */
    method OnSeek(step: int)
      requires Valid() && 0 <= step <= SliderMax(Total())
      modifies this
      ensures stepIndex == step
      ensures trace == old(trace) && userInputs == old(userInputs)
      ensures selectedLine == old(selectedLine) && maxSteps == old(maxSteps)
      ensures Valid()
    {
      stepIndex := step;
    }

    /** A click in the editor's gutter (`onLineSelect`). */
    method SelectLine(line: Option<int>)
      requires Valid()
      modifies this
      ensures selectedLine == line
      ensures trace == old(trace) && stepIndex == old(stepIndex)
      ensures userInputs == old(userInputs) && maxSteps == old(maxSteps)
      ensures Valid()
    {
      selectedLine := line;
    }

    /** The step-limit field (`onMaxStepsChange`), given the text typed into it. */
    method ChangeMaxSteps(typed: string)
      requires Valid()
      modifies this
      ensures maxSteps == StepLimit(typed) && maxSteps >= 10
      ensures trace == old(trace) && stepIndex == old(stepIndex)
      ensures userInputs == old(userInputs) && selectedLine == old(selectedLine)
      ensures Valid()
    {
      maxSteps := StepLimit(typed);
    }

    /**
     * Run Analysis (`handleRun`): a fresh run with no inputs. The first step
     * is selected when the trace has steps; a thrown error becomes a trace
     * with no step and the error's message.
     */
    method HandleRun(run: (int, seq<string>) -> Outcome)
      requires Valid()
      modifies this
      ensures userInputs == []
      ensures run(old(maxSteps), []).Returned? ==> trace == Some(run(old(maxSteps), []).trace)
      ensures run(old(maxSteps), []).Threw? ==>
                trace == Some(ExecutionTrace([], Some(FailureText(run(old(maxSteps), []).message)), None))
      ensures stepIndex == if Total() > 0 then 0 else -1
      ensures selectedLine == old(selectedLine) && maxSteps == old(maxSteps)
      ensures Valid()
    {
      trace := None;
      stepIndex := -1;
      userInputs := [];
      var outcome := run(maxSteps, []);
      match outcome {
        case Returned(result) =>
          trace := Some(result);
          if |result.steps| > 0 {
            stepIndex := 0;
          } else if result.error.Some? {
            trace := Some(result);
          }
        case Threw(message) =>
          trace := Some(ExecutionTrace([], Some(FailureText(message)), None));
      }
    }

    /**
     * An answer typed into the input prompt (`handleInputSubmit`): without a
     * trace nothing happens; otherwise the answer is appended to the inputs,
     * the program is run again with all of them, and the last step of the new
     * trace is selected. When the re-run throws, only the inputs change.
     */
    method HandleInputSubmit(value: string, run: (int, seq<string>) -> Outcome)
      requires Valid()
      modifies this
      ensures old(trace).None? ==>
                trace == old(trace) && stepIndex == old(stepIndex) && userInputs == old(userInputs)
      ensures old(trace).Some? ==> userInputs == old(userInputs) + [value]
      ensures old(trace).Some? && run(old(maxSteps), userInputs).Returned? ==>
                trace == Some(run(old(maxSteps), userInputs).trace)
                && stepIndex == (if Total() > 0 then Total() - 1 else old(stepIndex))
      ensures old(trace).Some? && run(old(maxSteps), userInputs).Threw? ==>
                trace == old(trace) && stepIndex == old(stepIndex)
      ensures selectedLine == old(selectedLine) && maxSteps == old(maxSteps)
      ensures Valid()
    {
      if trace.None? {
        return;
      }
      userInputs := userInputs + [value];
      var outcome := run(maxSteps, userInputs);
      if outcome.Returned? {
        trace := Some(outcome.trace);
        if |outcome.trace.steps| > 0 {
          stepIndex := |outcome.trace.steps| - 1;
        }
      }
    }

    /** Reset IDE (`handleResetIDE`), once the user has confirmed. */
    method HandleResetIDE(confirmed: bool)
      requires Valid()
      modifies this
      ensures !confirmed ==> trace == old(trace) && stepIndex == old(stepIndex) && userInputs == old(userInputs)
                             && selectedLine == old(selectedLine) && maxSteps == old(maxSteps)
      ensures confirmed ==> trace == None && stepIndex == -1 && userInputs == []
                            && selectedLine == None && maxSteps == 1000
      ensures Valid()
    {
      if confirmed {
        trace := None;
        stepIndex := -1;
        selectedLine := None;
        maxSteps := 1000;
        userInputs := [];
      }
    }
  }

  // -----------------------------------------------------------------------
  // What the controls show for a valid state
  // -----------------------------------------------------------------------

  /** In a valid state a step is shown exactly when the trace has steps. */
  lemma StepShownIffSteps(trace: Option<ExecutionTrace>, stepIndex: int)
    requires stepIndex >= -1 && (TotalOf(trace) > 0 ==> 0 <= stepIndex < TotalOf(trace))
    ensures (trace.Some? && 0 <= stepIndex < |trace.value.steps|) <==> TotalOf(trace) > 0
  {
  }

  /**
   * In a valid state a step is shown exactly when the trace has steps, and
   * the previous step exists exactly when a step other than the first is shown.
   */
  lemma SelectionShown(app: App)
    requires app.Valid()
    ensures app.CurrentStep().Some? <==> app.Total() > 0
    ensures app.PrevStep().Some? <==> app.CurrentStep().Some? && app.stepIndex > 0
  {
  }

  /** Next moves exactly one step on whenever its button is enabled. */
  lemma NextWhenEnabled(i: int, total: nat)
    requires -1 <= i && !NextDisabled(i, total)
    ensures NextIndex(i, total) == i + 1
  {
  }

  /** Next stays put on the last step, where its button is disabled. */
  lemma NextAtLastStays(i: int, total: nat)
    requires total > 0 && 0 <= i < total && NextDisabled(i, total)
    ensures NextIndex(i, total) == i && i == total - 1
  {
  }

  /** Prev moves exactly one step back whenever its button is enabled, and stays on the first step. */
  lemma PrevMatchesButton(i: int)
    requires i >= 0
    ensures !PrevDisabled(i) ==> PrevIndex(i) == i - 1
    ensures PrevDisabled(i) ==> PrevIndex(i) == i
  {
  }

  /** Walking Next from the first step reaches the last step in `total - 1` presses and stays there. */
  lemma {:induction false} NextReachesLast(total: nat, presses: nat)
    requires total > 0
    ensures Pressed(0, total, presses) == if presses < total - 1 then presses else total - 1
    decreases presses
  {
    if presses > 0 {
      NextReachesLast(total, presses - 1);
    }
  }

  /** The index after pressing Next `presses` times from `i`. */
  function Pressed(i: int, total: nat, presses: nat): int {
    if presses == 0 then i else NextIndex(Pressed(i, total, presses - 1), total)
  }

  /** A valid state with steps shows its position on the slider and in the counter. */
  lemma ControlsShowSelection(trace: Option<ExecutionTrace>, stepIndex: int)
    requires stepIndex >= -1 && (TotalOf(trace) > 0 ==> 0 <= stepIndex < TotalOf(trace))
    requires TotalOf(trace) > 0
    ensures 0 <= SliderValue(stepIndex) == stepIndex <= SliderMax(TotalOf(trace))
    ensures ParseInt(Counter(stepIndex, TotalOf(trace))) == Some(stepIndex + 1)
  {
    CounterShowsPosition(stepIndex, TotalOf(trace));
  }

  /**
   * The selected lines' steps are exactly the steps run at that line: the
   * highlighted ticks are a sorted list of positions on the slider.
   */
  lemma HighlightsOnSlider(steps: seq<Step>, line: int, k: nat)
    requires k < |StepsAtLine(steps, line)|
    ensures 0 <= StepsAtLine(steps, line)[k] <= SliderMax(|steps|)
  {
  }
}
