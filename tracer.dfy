/**
 * The tracer script: `Tracer.snapshot`, the two trace hooks, and the
 * `try`/`except`/`finally` around the traced program that assembles the
 * script's result.
 *
 * The traced program is not interpreted. What it does is given as the
 * sequence of hook events it causes (frame creations, executed lines, tracked
 * list accesses, `input()` calls), each frame event carrying the frame as the
 * hook sees it at that moment, together with how the program ends and the state
 * each frame is left in. The events are those of this run: after an `input()`
 * that finds no answer and whose error no handler catches, they are the
 * events of the unwinding (the test line of an `except` that does not match,
 * a `finally` body, a `with` exit), which the hooks still see.
 */
module Tracing {
  import opened Common
  import opened Json
  import opened PyHeap
  import opened Serializer
  import opened Tracking

  /** One variable of a step: `{"type", "value"}`, with `"id"` for lists. */
  datatype VariableValue = VariableValue(typ: string, value: Json, id: Option<string>)

  /** One recorded step; `variables` keeps the insertion order of the Python dict. */
  datatype Step = Step(line: int, stdout: string, variables: seq<(string, VariableValue)>,
                       accesses: seq<Access>, explanation: string)

  type FrameId = nat

  /**
   * A frame as a hook sees it: its identity, whether its code comes from the
   * traced program (`co_filename == '<string>'`), `f_lineno`, `f_locals` in dict
   * order, and the objects reachable at that moment.
   */
  datatype FrameView = FrameView(id: FrameId, inUserCode: bool, lineNo: int,
                                 locals: seq<(string, PyVal)>, heap: Heap)

  predicate ViewOk(f: FrameView) {
    Closed(f.heap) && forall i :: 0 <= i < |f.locals| ==> Defined(f.heap, f.locals[i].1)
  }

  /** What the traced program does, as the hooks and the patched built-ins see it. */
  datatype Event =
      /** A new frame starts: the global hook runs. */
    | Call(frame: FrameView)
      /** A line is about to run in a frame: its local hook runs; `stdout` is the output so far. */
    | Line(frame: FrameView, stdout: string)
      /** `lst[index]` read or written on a tracked list of this length. */
    | ListAccess(kind: AccessKind, arrayId: string, length: nat, index: Index)
      /**
       * A call of `input()`; `caught` when a handler of the traced program
       * catches the `NeedsInputError` it raises if no answer is queued.
       */
    | Input(caught: bool)

  /**
   * How the traced program ends, unless an `input()` call found no answer
   * and no handler of the program caught the error, which then ends it:
   * normally, with an `Exception` (the first line of its formatted text), or
   * with a `BaseException` that is not an `Exception`, which no handler of the
   * script catches. A syntax error is an exception raised before any event.
   */
  datatype Ending = Completed | Raised(message: string) | Escaped(message: string)

  datatype GuestRun = GuestRun(events: seq<Event>, ending: Ending,
                               exitViews: map<FrameId, FrameView>, finalStdout: string)

  predicate EventOk(e: Event) {
    (e.Call? || e.Line?) ==> ViewOk(e.frame)
  }

  /** The frames of the traced program the global hook has seen start. */
  function CalledIds(events: seq<Event>): set<FrameId> {
    set i | 0 <= i < |events| && events[i].Call? && events[i].frame.inUserCode :: events[i].frame.id
  }

  /** Every frame is well formed, and every frame the program started has a known final state. */
  predicate RunOk(run: GuestRun) {
    && (forall i :: 0 <= i < |run.events| ==> EventOk(run.events[i]))
    && (forall id :: id in run.exitViews ==> ViewOk(run.exitViews[id]))
    && CalledIds(run.events) <= run.exitViews.Keys
  }

  // ---------------------------------------------------------------------------
  // What one snapshot records.

  /** The snapshot's filter on `f_locals`: dunder names, the tracer, code objects and the `TrackedList` name are skipped. */
  predicate Shown(h: Heap, name: string, v: PyVal)
    requires Defined(h, v)
  {
    && !StartsWith(name, "__")
    && name != "tracer_instance"
    && !IsCode(h, v)
    && name != "TrackedList"
  }

  /** `{"type": ..., "value": serialize(v)}`, plus `"id": str(id(v))` for a list. */
  function Describe(h: Heap, v: PyVal): VariableValue
    requires Closed(h) && Defined(h, v)
  {
    VariableValue(TypeLabel(h, v), SerializeRoot(h, v), if IsListLike(h, v) then Some(NatToString(v.id)) else None)
  }

  /** `current_vars` after the loop has visited `locals`. */
  function Captured(h: Heap, locals: seq<(string, PyVal)>): seq<(string, VariableValue)>
    requires Closed(h) && forall i :: 0 <= i < |locals| ==> Defined(h, locals[i].1)
  {
    if |locals| == 0 then []
    else
      var prev := Captured(h, locals[..|locals| - 1]);
      var (name, v) := locals[|locals| - 1];
      if Shown(h, name, v) then Put(prev, name, Describe(h, v)) else prev
  }

  /** The names the snapshot keeps, in `f_locals` order. */
  function ShownNames(h: Heap, locals: seq<(string, PyVal)>): seq<string>
    requires forall i :: 0 <= i < |locals| ==> Defined(h, locals[i].1)
  {
    if |locals| == 0 then []
    else
      var (name, v) := locals[|locals| - 1];
      ShownNames(h, locals[..|locals| - 1]) + if Shown(h, name, v) then [name] else []
  }

  lemma {:induction false} ShownNamesAreLocals(h: Heap, locals: seq<(string, PyVal)>)
    requires forall i :: 0 <= i < |locals| ==> Defined(h, locals[i].1)
    ensures forall k :: k in ShownNames(h, locals) ==> k in KeysOf(locals)
  {
    if |locals| > 0 {
      var init := locals[..|locals| - 1];
      ShownNamesAreLocals(h, init);
      forall k | k in KeysOf(init) ensures k in KeysOf(locals) {
        var j :| 0 <= j < |init| && KeysOf(init)[j] == k;
        assert KeysOf(locals)[j] == k;
      }
      assert KeysOf(locals)[|locals| - 1] == locals[|locals| - 1].0;
    }
  }

  /** Dropping the last pair keeps the keys distinct, and the last key is not among the others. */
  lemma DistinctInit<T>(fields: seq<(string, T)>)
    requires |fields| > 0 && DistinctKeys(fields)
    ensures DistinctKeys(fields[..|fields| - 1])
    ensures fields[|fields| - 1].0 !in KeysOf(fields[..|fields| - 1])
  {
    var init := fields[..|fields| - 1];
    forall i, j | 0 <= i < j < |init| ensures KeysOf(init)[i] != KeysOf(init)[j] {
      assert KeysOf(fields)[i] != KeysOf(fields)[j];
    }
    forall j | 0 <= j < |init| ensures KeysOf(init)[j] != fields[|fields| - 1].0 {
      assert KeysOf(fields)[j] != KeysOf(fields)[|fields| - 1];
    }
  }

  /** Looking a key up after appending a pair: earlier pairs win. */
  lemma {:induction false} LookupAppend<T>(fields: seq<(string, T)>, p: (string, T), k: string)
    ensures Lookup(fields + [p], k) ==
            if Lookup(fields, k).Some? then Lookup(fields, k) else if k == p.0 then Some(p.1) else None
  {
    if |fields| > 0 {
      assert (fields + [p])[1..] == fields[1..] + [p];
      LookupAppend(fields[1..], p, k);
    }
  }

  /**
   * The names of a step's variables: with the distinct names of `f_locals`,
   * exactly the names the filter keeps, in `f_locals` order.
   */
  lemma {:induction false} CapturedNames(h: Heap, locals: seq<(string, PyVal)>)
    requires Closed(h) && forall i :: 0 <= i < |locals| ==> Defined(h, locals[i].1)
    requires DistinctKeys(locals)
    ensures KeysOf(Captured(h, locals)) == ShownNames(h, locals)
  {
    if |locals| > 0 {
      var init := locals[..|locals| - 1];
      DistinctInit(locals);
      CapturedNames(h, init);
      ShownNamesAreLocals(h, init);
    }
  }

  /**
   * The value of a step's variable: a name of `f_locals` the filter keeps is
   * described from its own value; any other name is absent.
   */
  lemma {:induction false} CapturedValue(h: Heap, locals: seq<(string, PyVal)>, k: string)
    requires Closed(h) && forall i :: 0 <= i < |locals| ==> Defined(h, locals[i].1)
    requires DistinctKeys(locals)
    ensures Lookup(locals, k).None? ==> Lookup(Captured(h, locals), k) == None
    ensures Lookup(locals, k).Some? ==>
              var v := Lookup(locals, k).value;
              Lookup(Captured(h, locals), k) == if Shown(h, k, v) then Some(Describe(h, v)) else None
  {
    if |locals| > 0 {
      var init := locals[..|locals| - 1];
      var (name, v) := locals[|locals| - 1];
      DistinctInit(locals);
      CapturedValue(h, init, k);
      assert locals == init + [(name, v)];
      LookupAppend(init, (name, v), k);
      CapturedUnfold(h, locals);
      if k == name {
        assert Lookup(init, k) == None;
      }
    }
  }

  lemma CapturedUnfold(h: Heap, locals: seq<(string, PyVal)>)
    requires Closed(h) && forall i :: 0 <= i < |locals| ==> Defined(h, locals[i].1)
    requires |locals| > 0
    ensures var init, last := locals[..|locals| - 1], locals[|locals| - 1];
            Captured(h, locals) ==
              if Shown(h, last.0, last.1) then Put(Captured(h, init), last.0, Describe(h, last.1)) else Captured(h, init)
  {
  }

  /** `f"Line {line_no}"` */
  function LineText(line: int): string {
    "Line " + IntToString(line)
  }

  /** The step `snapshot(frame, ...)` appends, given the output so far and the pending accesses. */
  function CaptureStep(frame: Option<FrameView>, stdout: string, accesses: seq<Access>): Step
    requires frame.Some? ==> ViewOk(frame.value)
  {
    match frame
    case Some(f) => Step(f.lineNo, stdout, Captured(f.heap, f.locals), accesses, LineText(f.lineNo))
    case None => Step(-1, stdout, [], accesses, "Execution Finished")
  }

  /** The step the `except Exception` handler appends. */
  function ErrorStep(message: string, stdout: string): Step {
    Step(0, stdout, [], [], "Error: " + message)
  }

  // ---------------------------------------------------------------------------
  // The recorder.

  class Tracer {
    var trace: seq<Step>
    var stepCount: nat
    /** `MAX_STEPS`, as the page passed it. */
    const maxSteps: int
    /** The global `ACCESS_LOG`. */
    const log: AccessLog

    constructor(maxSteps: int, log: AccessLog)
      ensures trace == [] && stepCount == 0 && this.maxSteps == maxSteps && this.log == log
    {
      trace := [];
      stepCount := 0;
      this.maxSteps := maxSteps;
      this.log := log;
    }

    /**
     * `snapshot(frame, event)`: once the budget is spent nothing changes;
     * otherwise the count goes up by one, exactly one step is appended, and
     * that step takes the whole access log, which is left empty.
     */
    method Snapshot(frame: Option<FrameView>, stdout: string)
      requires frame.Some? ==> ViewOk(frame.value)
      modifies this, log
      ensures old(stepCount) >= maxSteps ==>
                trace == old(trace) && stepCount == old(stepCount) && log.events == old(log.events)
      ensures old(stepCount) < maxSteps ==>
                && stepCount == old(stepCount) + 1
                && trace == old(trace) + [CaptureStep(frame, stdout, old(log.events))]
                && log.events == []
    {
      if stepCount >= maxSteps {
        return;
      }
      stepCount := stepCount + 1;
      var vars: seq<(string, VariableValue)> := [];
      if frame.Some? {
        var f := frame.value;
        var i := 0;
        while i < |f.locals|
          invariant 0 <= i <= |f.locals|
          invariant vars == Captured(f.heap, f.locals[..i])
        {
          var (name, v) := f.locals[i];
          if Shown(f.heap, name, v) {
            vars := Put(vars, name, Describe(f.heap, v));
          }
          assert f.locals[..i + 1][..i] == f.locals[..i];
          i := i + 1;
        }
        assert f.locals[..i] == f.locals;
      }
      var lineNo := if frame.Some? then frame.value.lineNo else -1;
      var accesses := log.Drain();
      trace := trace + [Step(lineNo, stdout, vars, accesses,
                             if frame.Some? then LineText(lineNo) else "Execution Finished")];
    }
  }

  // ---------------------------------------------------------------------------
  // The whole run, as a function of the events.

  /** The script's state between two events. */
  datatype RunState = RunState(pending: seq<string>, log: seq<Access>, stepCount: nat,
                               trace: seq<Step>, lastFrame: Option<FrameId>, needsInput: bool)

  /** `snapshot(frame, ...)` on the state. */
  function Record(maxSteps: int, st: RunState, frame: FrameView, stdout: string): RunState
    requires ViewOk(frame)
  {
    if st.stepCount >= maxSteps then st
    else st.(stepCount := st.stepCount + 1, trace := st.trace + [CaptureStep(Some(frame), stdout, st.log)], log := [])
  }

  /**
   * What one event does to the state: a line of the program appends one step
   * while the budget lasts and no event removes one; only `input()` touches the
   * answers, taking at most the first, and once the run waits for input it
   * keeps waiting.
   */
  function Take(maxSteps: int, st: RunState, e: Event): (r: RunState)
    requires EventOk(e)
    ensures st.trace <= r.trace && |r.trace| <= |st.trace| + 1
    ensures |r.trace| == |st.trace| + 1 <==> e.Line? && e.frame.inUserCode && st.stepCount < maxSteps
    ensures st.needsInput ==> r.needsInput
    ensures r.pending == st.pending || (|st.pending| > 0 && r.pending == st.pending[1..])
    ensures !e.Input? ==> r.pending == st.pending && r.needsInput == st.needsInput
  {
    match e
    case Call(f) => if f.inUserCode then st.(lastFrame := Some(f.id)) else st
    case Line(f, stdout) => if f.inUserCode then Record(maxSteps, st, f, stdout) else st
    case ListAccess(kind, arrayId, length, index) =>
      st.(log := st.log + Logged(kind, arrayId, length, index))
    case Input(caught) =>
      if |st.pending| > 0 then st.(pending := st.pending[1..])
      else if caught then st
      else st.(needsInput := true)
  }

  function Max0(n: int): nat {
    if n < 0 then 0 else n
  }

  function Min(a: nat, b: nat): nat {
    if a <= b then a else b
  }

  /**
   * The state after `events`. The hooks stay installed until the script's
   * `finally`, so lines run while `NeedsInputError` unwinds are recorded too.
   * Along the way the count equals the number of steps and never exceeds the
   * budget, and `last_frame` is a frame of the traced program.
   */
  function Prefix(maxSteps: int, inputs: seq<string>, events: seq<Event>): (st: RunState)
    requires forall i :: 0 <= i < |events| ==> EventOk(events[i])
    ensures st.stepCount == |st.trace| <= Max0(maxSteps)
    ensures st.lastFrame.Some? ==> st.lastFrame.value in CalledIds(events)
    ensures st.needsInput ==> st.pending == []
    decreases |events|
  {
    if |events| == 0 then RunState(inputs, [], 0, [], None, false)
    else
      var init := events[..|events| - 1];
      var st := Prefix(maxSteps, inputs, init);
      assert CalledIds(init) <= CalledIds(events) by {
        forall id | id in CalledIds(init) ensures id in CalledIds(events) {
          var i :| 0 <= i < |init| && init[i].Call? && init[i].frame.inUserCode && init[i].frame.id == id;
          assert events[i] == init[i];
        }
      }
      var e := events[|events| - 1];
      assert e.Call? && e.frame.inUserCode ==> e.frame.id in CalledIds(events);
      Take(maxSteps, st, e)
  }

  /** What the Python script hands back: its JSON output, or the exception that escaped it. */
  datatype ScriptResult = Output(steps: seq<Step>, needsInput: bool) | Propagated(message: string)

  /**
   * The `except` handlers, the `finally` block and the output, after the loop
   * over events. They only append to the recorded steps, at most the error
   * step and the final snapshot, and nothing at all while the run waits for input;
   * an escaping error is handed on only when the run is not waiting.
   */
  function Finish(maxSteps: int, run: GuestRun, st: RunState): (r: ScriptResult)
    requires RunOk(run)
    requires st.lastFrame.Some? ==> st.lastFrame.value in CalledIds(run.events)
    ensures r.Output? ==> st.trace <= r.steps && |r.steps| <= |st.trace| + 2
    ensures r.Output? && r.needsInput <==> st.needsInput
    ensures st.needsInput ==> r.steps == st.trace
    ensures r.Propagated? <==> !st.needsInput && run.ending.Escaped?
  {
    if st.needsInput then Output(st.trace, true)
    else
      var afterExcept := if run.ending.Raised? then st.(trace := st.trace + [ErrorStep(run.ending.message, run.finalStdout)])
                         else st;
      var afterFinally := if st.lastFrame.Some? then Record(maxSteps, afterExcept, run.exitViews[st.lastFrame.value], run.finalStdout)
                          else afterExcept;
      if run.ending.Escaped? then Propagated(run.ending.message) else Output(afterFinally.trace, false)
  }

  /**
   * The result of the tracer script for one traced program: its steps open
   * with those of the fold over the events, and are exactly those when the
   * run waits for input.
   */
  function Script(maxSteps: int, inputs: seq<string>, run: GuestRun): (r: ScriptResult)
    requires RunOk(run)
    ensures var st := Prefix(maxSteps, inputs, run.events);
            && (r.Output? ==> st.trace <= r.steps)
            && (r.Output? && r.needsInput <==> st.needsInput)
            && (st.needsInput ==> r.steps == st.trace)
    ensures r.Propagated? ==> run.ending.Escaped?
  {
    Finish(maxSteps, run, Prefix(maxSteps, inputs, run.events))
  }

  /**
   * Once an `input()` call found no answer and no handler caught the error,
   * the run stays waiting for input, no later call gets an answer, and the
   * steps recorded so far stay; only the unwinding's lines may add steps.
   */
  lemma {:induction false} WaitingPersists(maxSteps: int, inputs: seq<string>, events: seq<Event>, i: nat)
    requires forall j :: 0 <= j < |events| ==> EventOk(events[j])
    requires i <= |events| && Prefix(maxSteps, inputs, events[..i]).needsInput
    ensures var a, b := Prefix(maxSteps, inputs, events[..i]), Prefix(maxSteps, inputs, events);
            b.needsInput && b.pending == [] && a.trace <= b.trace
    decreases |events|
  {
    if i < |events| {
      var init := events[..|events| - 1];
      assert init[..i] == events[..i];
      WaitingPersists(maxSteps, inputs, init, i);
    } else {
      assert events[..i] == events;
    }
  }

  /** One more event. */
  lemma PrefixStep(maxSteps: int, inputs: seq<string>, events: seq<Event>, i: nat)
    requires forall j :: 0 <= j < |events| ==> EventOk(events[j])
    requires i < |events|
    ensures Prefix(maxSteps, inputs, events[..i + 1]) == Take(maxSteps, Prefix(maxSteps, inputs, events[..i]), events[i])
  {
    assert events[..i + 1][..i] == events[..i];
    assert events[..i + 1][i] == events[i];
  }

  /**
   * The script itself: build the tracer, run the traced program under the
   * hooks, then the handlers and the `finally` block.
   */
  method RunScript(maxSteps: int, inputs: seq<string>, run: GuestRun) returns (out: ScriptResult)
    requires RunOk(run)
    ensures out == Script(maxSteps, inputs, run)
  {
    var log := new AccessLog();
    var tracer := new Tracer(maxSteps, log);
    var queue := new InputQueue(inputs);
    var lastFrame: Option<FrameId> := None;
    var needsInput := false;
    var events := run.events;
    var i := 0;
    while i < |events|
      invariant 0 <= i <= |events|
      invariant tracer.log == log && tracer.maxSteps == maxSteps
      invariant Prefix(maxSteps, inputs, events[..i]) ==
                RunState(queue.pending, log.events, tracer.stepCount, tracer.trace, lastFrame, needsInput)
    {
      var e := events[i];
      assert EventOk(e);
      PrefixStep(maxSteps, inputs, events, i);
      match e {
        case Call(f) =>
          // global_trace
          if f.inUserCode {
            lastFrame := Some(f.id);
          }
        case Line(f, stdout) =>
          // trace_func
          if f.inUserCode {
            tracer.Snapshot(Some(f), stdout);
          }
        case ListAccess(kind, arrayId, length, index) =>
          // TrackedList.__getitem__ / __setitem__
          if index.At? {
            log.Append(Access(kind, arrayId, NormalizeIndex(index.i, length)));
          }
        case Input(caught) =>
          var answer := queue.Input("");
          if answer.Err? && !caught {
            needsInput := true;
          }
      }
      i := i + 1;
    }
    assert events[..i] == events;
    ghost var st := Prefix(maxSteps, inputs, events);
    if !needsInput && run.ending.Raised? {
      tracer.trace := tracer.trace + [ErrorStep(run.ending.message, run.finalStdout)];
    }
    if lastFrame.Some? && !needsInput {
      tracer.Snapshot(Some(run.exitViews[lastFrame.value]), run.finalStdout);
    }
    if !needsInput && run.ending.Escaped? {
      out := Propagated(run.ending.message);
    } else {
      out := Output(tracer.trace, needsInput);
    }
  }

  // ---------------------------------------------------------------------------
  // Properties of a run.

  /** The number of `input()` calls among `events`. */
  function InputCount(events: seq<Event>): nat {
    if |events| == 0 then 0
    else InputCount(events[..|events| - 1]) + if events[|events| - 1].Input? then 1 else 0
  }

  /**
   * Whether, with `n` answers queued, some `input()` call among `events` finds
   * no answer left and no handler of the program catches the error.
   */
  predicate Stalls(n: nat, events: seq<Event>) {
    if |events| == 0 then false
    else
      var init, e := events[..|events| - 1], events[|events| - 1];
      Stalls(n, init) || (e.Input? && !e.caught && InputCount(init) >= n)
  }

  /** The number of lines of the traced program that run, including those run while an error unwinds. */
  function LinesRun(events: seq<Event>): nat {
    if |events| == 0 then 0
    else
      var init, e := events[..|events| - 1], events[|events| - 1];
      LinesRun(init) + if e.Line? && e.frame.inUserCode then 1 else 0
  }

  /** Whether a frame of the traced program starts. */
  predicate Entered(events: seq<Event>) {
    if |events| == 0 then false
    else
      var init, e := events[..|events| - 1], events[|events| - 1];
      Entered(init) || (e.Call? && e.frame.inUserCode)
  }

  /** With an answer for every `input()` call, the run never stalls. */
  lemma {:induction false} EnoughAnswersNeverStall(n: nat, events: seq<Event>)
    requires InputCount(events) <= n
    ensures !Stalls(n, events)
    decreases |events|
  {
    if |events| > 0 {
      EnoughAnswersNeverStall(n, events[..|events| - 1]);
    }
  }

  /**
   * Answers are consumed first in, first out: until the run stalls, the queue
   * holds exactly the answers not yet asked for; the run waits for input
   * exactly when an uncaught `input()` call finds the queue empty, which never
   * happens while there are as many answers as calls.
   */
  lemma {:induction false} InputsConsumedInOrder(maxSteps: int, inputs: seq<string>, events: seq<Event>)
    requires forall i :: 0 <= i < |events| ==> EventOk(events[i])
    ensures var st := Prefix(maxSteps, inputs, events);
            && (st.needsInput <==> Stalls(|inputs|, events))
            && (!st.needsInput ==> st.pending == inputs[Min(InputCount(events), |inputs|)..])
            && (InputCount(events) <= |inputs| ==> !st.needsInput)
    decreases |events|
  {
    if InputCount(events) <= |inputs| {
      EnoughAnswersNeverStall(|inputs|, events);
    }
    if |events| > 0 {
      var init := events[..|events| - 1];
      InputsConsumedInOrder(maxSteps, inputs, init);
      var st := Prefix(maxSteps, inputs, init);
      var e := events[|events| - 1];
      if !st.needsInput && e.Input? && InputCount(init) < |inputs| {
        assert inputs[InputCount(init)..][1..] == inputs[InputCount(init) + 1..];
      }
    }
  }

  /**
   * Replaying with more answers: when every `input()` call of the first run
   * had its answer, a run given extra answers records the very same steps,
   * with the extra answers still queued.
   */
  lemma {:induction false} ReplayKeepsSteps(maxSteps: int, inputs: seq<string>, extra: seq<string>, events: seq<Event>)
    requires forall i :: 0 <= i < |events| ==> EventOk(events[i])
    requires InputCount(events) <= |inputs|
    ensures var a, b := Prefix(maxSteps, inputs, events), Prefix(maxSteps, inputs + extra, events);
            b == a.(pending := a.pending + extra)
    decreases |events|
  {
    if |events| > 0 {
      var init := events[..|events| - 1];
      ReplayKeepsSteps(maxSteps, inputs, extra, init);
      InputsConsumedInOrder(maxSteps, inputs, init);
      TakeWithExtraAnswers(maxSteps, Prefix(maxSteps, inputs, init), events[|events| - 1], extra);
    }
  }

  /** One event behaves the same with extra answers queued, unless it is an `input()` with no answer. */
  lemma TakeWithExtraAnswers(maxSteps: int, st: RunState, e: Event, extra: seq<string>)
    requires EventOk(e) && !st.needsInput && (e.Input? ==> |st.pending| > 0)
    ensures var a := Take(maxSteps, st, e);
            Take(maxSteps, st.(pending := st.pending + extra), e) == a.(pending := a.pending + extra)
  {
    if e.Input? {
      assert (st.pending + extra)[1..] == st.pending[1..] + extra;
    }
  }

  /** Adding events never removes a recorded step. */
  lemma {:induction false} PrefixKeepsTrace(maxSteps: int, inputs: seq<string>, p: seq<Event>, e: seq<Event>)
    requires forall i :: 0 <= i < |p| ==> EventOk(p[i])
    requires forall i :: 0 <= i < |e| ==> EventOk(e[i])
    ensures Prefix(maxSteps, inputs, p).trace <= Prefix(maxSteps, inputs, p + e).trace
    decreases |e|
  {
    if |e| > 0 {
      var init := e[..|e| - 1];
      assert (p + e)[..|p + e| - 1] == p + init;
      assert (p + e)[|p + e| - 1] == e[|e| - 1];
      PrefixKeepsTrace(maxSteps, inputs, p, init);
      assert Prefix(maxSteps, inputs, p + e) == Take(maxSteps, Prefix(maxSteps, inputs, p + init), e[|e| - 1]);
    } else {
      assert p + e == p;
    }
  }

  /**
   * Resuming after input: the page reruns the program with more answers.
   * Both runs take the same path until the first `input()` call the first
   * run cannot answer, so they share the events `p` before it. The steps
   * recorded over `p` come first in both runs, unchanged, whatever follows:
   * the first run's unwinding or the rerun's continuation.
   */
  lemma ResumeExtends(maxSteps: int, inputs: seq<string>, extra: seq<string>,
                      p: seq<Event>, e1: seq<Event>, e2: seq<Event>)
    requires forall i :: 0 <= i < |p| ==> EventOk(p[i])
    requires forall i :: 0 <= i < |e1| ==> EventOk(e1[i])
    requires forall i :: 0 <= i < |e2| ==> EventOk(e2[i])
    requires InputCount(p) <= |inputs|
    ensures var s := Prefix(maxSteps, inputs, p).trace;
            && s <= Prefix(maxSteps, inputs, p + e1).trace
            && s <= Prefix(maxSteps, inputs + extra, p + e2).trace
  {
    ReplayKeepsSteps(maxSteps, inputs, extra, p);
    PrefixKeepsTrace(maxSteps, inputs, p, e1);
    PrefixKeepsTrace(maxSteps, inputs + extra, p, e2);
  }

  /**
   * At the level of the script's result: two runs sharing the events `p`
   * over which every `input()` call had its answer both show the steps
   * recorded over `p` first, so the run that stopped to wait for input and
   * its rerun with more answers agree up to that call. A run that had an
   * answer for every call gives the same result again with more answers.
   */
  lemma ResumeShowsEarlierSteps(maxSteps: int, inputs: seq<string>, extra: seq<string>,
                                p: seq<Event>, run1: GuestRun, run2: GuestRun)
    requires RunOk(run1) && RunOk(run2)
    requires p <= run1.events && p <= run2.events && InputCount(p) <= |inputs|
    ensures var s := Prefix(maxSteps, inputs, p).trace;
            var a, b := Script(maxSteps, inputs, run1), Script(maxSteps, inputs + extra, run2);
            && (a.Output? ==> s <= a.steps)
            && (b.Output? ==> s <= b.steps)
    ensures InputCount(run1.events) <= |inputs| ==>
              Script(maxSteps, inputs + extra, run1) == Script(maxSteps, inputs, run1)
  {
    ReplayKeepsSteps(maxSteps, inputs, extra, p);
    ScriptKeepsPrefix(maxSteps, inputs, p, run1);
    ScriptKeepsPrefix(maxSteps, inputs + extra, p, run2);
    if InputCount(run1.events) <= |inputs| {
      ReplayKeepsSteps(maxSteps, inputs, extra, run1.events);
    }
  }

  /** The steps recorded over the first events of a run open the script's output. */
  lemma ScriptKeepsPrefix(maxSteps: int, inputs: seq<string>, p: seq<Event>, run: GuestRun)
    requires RunOk(run) && p <= run.events
    ensures forall i :: 0 <= i < |p| ==> EventOk(p[i])
    ensures var out := Script(maxSteps, inputs, run);
            out.Output? ==> Prefix(maxSteps, inputs, p).trace <= out.steps
  {
    var e := run.events[|p|..];
    assert run.events == p + e;
    PrefixKeepsTrace(maxSteps, inputs, p, e);
  }

  /**
   * The step count: every line of the traced program takes a snapshot while
   * the budget lasts, including the lines run while an error unwinds.
   */
  lemma {:induction false} StepsCounted(maxSteps: int, inputs: seq<string>, events: seq<Event>)
    requires forall i :: 0 <= i < |events| ==> EventOk(events[i])
    ensures Prefix(maxSteps, inputs, events).stepCount == Min(Max0(maxSteps), LinesRun(events))
    decreases |events|
  {
    if |events| > 0 {
      StepsCounted(maxSteps, inputs, events[..|events| - 1]);
    }
  }

  /** `last_frame` is set exactly when a frame of the program started. */
  lemma {:induction false} LastFrameSet(maxSteps: int, inputs: seq<string>, events: seq<Event>)
    requires forall i :: 0 <= i < |events| ==> EventOk(events[i])
    ensures Prefix(maxSteps, inputs, events).lastFrame.Some? <==> Entered(events)
    decreases |events|
  {
    if |events| > 0 {
      LastFrameSet(maxSteps, inputs, events[..|events| - 1]);
    }
  }

  /**
   * The step budget, exactly: a run that stalls shows one snapshot per line
   * run, the unwinding's included, up to `MAX_STEPS`; otherwise the final snapshot counts as
   * one more line, and a program that raised adds the uncounted error step.
   * So a program running more lines than the budget ends with exactly
   * `MAX_STEPS` snapshots.
   */
  lemma StepBudget(maxSteps: int, inputs: seq<string>, run: GuestRun)
    requires RunOk(run)
    ensures var out, n := Script(maxSteps, inputs, run), |inputs|;
            var lines := LinesRun(run.events);
            && (out.Propagated? <==> !Stalls(n, run.events) && run.ending.Escaped?)
            && (Stalls(n, run.events) ==> out.Output? && out.needsInput && |out.steps| == Min(Max0(maxSteps), lines))
            && (!Stalls(n, run.events) && out.Output? ==>
                  !out.needsInput
                  && |out.steps| == Min(Max0(maxSteps), lines + if Entered(run.events) then 1 else 0)
                                    + if run.ending.Raised? then 1 else 0)
  {
    InputsConsumedInOrder(maxSteps, inputs, run.events);
    StepsCounted(maxSteps, inputs, run.events);
    LastFrameSet(maxSteps, inputs, run.events);
    var st := Prefix(maxSteps, inputs, run.events);
    if !st.needsInput {
      var afterExcept := if run.ending.Raised? then st.(trace := st.trace + [ErrorStep(run.ending.message, run.finalStdout)])
                         else st;
      assert |afterExcept.trace| == st.stepCount + if run.ending.Raised? then 1 else 0;
      if st.lastFrame.Some? {
        var f := run.exitViews[st.lastFrame.value];
        assert |Record(maxSteps, afterExcept, f, run.finalStdout).trace|
               == |afterExcept.trace| + if st.stepCount < maxSteps then 1 else 0;
      }
    }
  }

  /**
   * An `input()` call without an answer that no handler catches ends the run
   * with exactly the steps recorded, those of the unwinding included: no error
   * step and no final snapshot.
   */
  lemma NeedsInputSuppressesFinal(maxSteps: int, inputs: seq<string>, run: GuestRun)
    requires RunOk(run)
    requires Stalls(|inputs|, run.events)
    ensures Script(maxSteps, inputs, run) == Output(Prefix(maxSteps, inputs, run.events).trace, true)
  {
    InputsConsumedInOrder(maxSteps, inputs, run.events);
  }

  /** A frame of the traced program at line `n`, with no locals. */
  function AtLine(n: int): FrameView {
    FrameView(0, true, n, [], map[])
  }

  /**
   * `try:` / `n = int(input())` / `except ValueError:` / `n = 0`, run with no
   * answers: the `except` test on line 3 runs while `NeedsInputError` unwinds.
   */
  function UnwindingRun(): GuestRun {
    GuestRun([Call(AtLine(1)), Line(AtLine(1), ""), Line(AtLine(2), ""), Input(false), Line(AtLine(3), "")],
             Completed, map[0 := AtLine(3)], "")
  }

  /** The line run while the error unwinds is the third step of the run waiting for input. */
  lemma UnwindingLineRecorded()
    ensures RunOk(UnwindingRun())
    ensures var out := Script(1000, [], UnwindingRun());
            && out.Output? && out.needsInput && |out.steps| == 3
            && out.steps[0].line == 1 && out.steps[1].line == 2 && out.steps[2].line == 3
  {
    var events := UnwindingRun().events;
    assert CalledIds(events) == {0} by {
      assert events[0].Call? && events[0].frame.id == 0;
    }
    UnwindingFold();
  }

  /** The fold over the example: two steps before `input()`, then the unwinding's line. */
  lemma UnwindingFold()
    ensures forall i :: 0 <= i < |UnwindingRun().events| ==> EventOk(UnwindingRun().events[i])
    ensures var st := Prefix(1000, [], UnwindingRun().events);
            && st.needsInput && |st.trace| == 3
            && st.trace[0].line == 1 && st.trace[1].line == 2 && st.trace[2].line == 3
  {
    var events := UnwindingRun().events;
    assert events[..4][..3] == events[..3];
    assert events[..4] == events[..|events| - 1];
    UnwindingBeforeInput();
    var s3 := Prefix(1000, [], events[..3]);
    var s4 := Prefix(1000, [], events[..4]);
    assert s4 == Take(1000, s3, Input(false));
    var st := Prefix(1000, [], events);
    assert st == Take(1000, s4, Line(AtLine(3), ""));
  }

  /** The fold over the example's first three events: the lines 1 and 2, and no answer queued. */
  lemma UnwindingBeforeInput()
    ensures var s3 := Prefix(1000, [], UnwindingRun().events[..3]);
            && |s3.trace| == 2 && s3.stepCount == 2 && s3.pending == [] && !s3.needsInput
            && s3.trace[0].line == 1 && s3.trace[1].line == 2
  {
    var events := UnwindingRun().events;
    assert events[..1][..0] == [];
    assert events[..2][..1] == events[..1];
    assert events[..3][..2] == events[..2];
    var s0 := Prefix(1000, [], events[..0]);
    assert s0 == RunState([], [], 0, [], None, false);
    var s1 := Prefix(1000, [], events[..1]);
    assert s1 == Take(1000, s0, Call(AtLine(1)));
    var s2 := Prefix(1000, [], events[..2]);
    assert s2 == Take(1000, s1, Line(AtLine(1), ""));
    assert |s2.trace| == 1 && s2.trace[0].line == 1 && s2.pending == [];
    var s3 := Prefix(1000, [], events[..3]);
    assert s3 == Take(1000, s2, Line(AtLine(2), ""));
  }

  /** Every step reads "Line N" for its own line. */
  predicate LineSteps(trace: seq<Step>) {
    forall j :: 0 <= j < |trace| ==> trace[j].explanation == LineText(trace[j].line)
  }

  lemma RecordKeepsLines(maxSteps: int, st: RunState, f: FrameView, stdout: string)
    requires ViewOk(f) && LineSteps(st.trace)
    ensures LineSteps(Record(maxSteps, st, f, stdout).trace)
  {
    if st.stepCount < maxSteps {
      var step := CaptureStep(Some(f), stdout, st.log);
      var t := st.trace + [step];
      forall j | 0 <= j < |t| ensures t[j].explanation == LineText(t[j].line) {
        if j < |st.trace| {
          assert t[j] == st.trace[j];
        }
      }
    }
  }

  /**
   * Every snapshot the script takes is passed a frame, so no step reads
   * "Execution Finished": each is "Line N" for its own line.
   */
  lemma {:induction false} PrefixStepsAreLines(maxSteps: int, inputs: seq<string>, events: seq<Event>)
    requires forall i :: 0 <= i < |events| ==> EventOk(events[i])
    ensures LineSteps(Prefix(maxSteps, inputs, events).trace)
    decreases |events|
  {
    if |events| > 0 {
      var init := events[..|events| - 1];
      PrefixStepsAreLines(maxSteps, inputs, init);
      var st := Prefix(maxSteps, inputs, init);
      var e := events[|events| - 1];
      if e.Line? && e.frame.inUserCode {
        RecordKeepsLines(maxSteps, st, e.frame, e.stdout);
      }
    }
  }

  /** Apart from the error step, every step of a result reads "Line N" for its own line. */
  lemma NoExecutionFinishedStep(maxSteps: int, inputs: seq<string>, run: GuestRun)
    requires RunOk(run)
    ensures var out := Script(maxSteps, inputs, run);
            out.Output? ==> forall j :: 0 <= j < |out.steps| ==>
              out.steps[j].explanation == LineText(out.steps[j].line)
              || (run.ending.Raised? && out.steps[j] == ErrorStep(run.ending.message, run.finalStdout))
  {
    PrefixStepsAreLines(maxSteps, inputs, run.events);
    var st := Prefix(maxSteps, inputs, run.events);
    var out := Script(maxSteps, inputs, run);
    if out.Output? && !st.needsInput {
      if run.ending.Raised? {
        var err := ErrorStep(run.ending.message, run.finalStdout);
        var t := st.trace + [err];
        var tail: seq<Step> := if st.lastFrame.Some? && st.stepCount < maxSteps
                               then [CaptureStep(Some(run.exitViews[st.lastFrame.value]), run.finalStdout, st.log)]
                               else [];
        assert out.steps == t + tail;
        forall j | 0 <= j < |out.steps|
          ensures out.steps[j].explanation == LineText(out.steps[j].line) || out.steps[j] == err
        {
          if j < |st.trace| {
            assert out.steps[j] == st.trace[j];
          } else if j > |st.trace| {
            assert out.steps[j] == tail[0];
          }
        }
      } else if st.lastFrame.Some? {
        RecordKeepsLines(maxSteps, st, run.exitViews[st.lastFrame.value], run.finalStdout);
      }
    }
  }
}
